# Organ-16 in Dafny

Organ-16 is a small 16-bit computer. It has an eight-class instruction set, a two-phase clock, eight general registers, a stack pointer, a flag register, 65536 words of RAM and three I/O ports. Part of the RAM, 0x8000-0xBFFF, is a 128 x 128 RGB565 screen. This project models two parts of the repository:

- **The emulator back end.** This covers the ALU, the instruction decoder (control unit), the flip-flops that track multi-word instructions (temporary values), the register file, the memory interface and RAM, the clock, and the processor's half-cycle `Tick`.
  - Every component that the C++ updates in place is a class with its fields: `Clock`, `TemporaryValues`, `RegisterFile`, `Ram`, `MemoryInterface` and `Cpu`.
  - Each mutating method is proved to take its component to a pure step function of the old state. For example, `Cpu.Tick` ensures `State() == TickSpec(old(State()))`.
  - Lemmas about those step functions state what the hardware promises. Examples are the branch conditions after a compare, the one-shot write latch, and that a halted processor keeps PC, FLAGS and the general registers.
- **The toolchain.**
  - The linker `tools/compiler.py`: `@define` constants, label passes, cropping segments that would reach the stack region, and writing the 64K-word image. It is split into the modules `Text` (the Python string and number built-ins it relies on), `Labels`, `Assembler`, `Encoding` and `Linker`.
  - The older assembler `main.py` (`Legacy`).
  - The editor's syntax checker, `validate_org_source` of the language server (`Validator`).
  - The picture converter `tools/image_encoder.py` (`ImageEncoder`).
  - The loops of each Python function are Dafny methods proved against a specification function. The properties are proved about those functions: encodings decode back through the control unit's fields, labels get the addresses of their lines, and the stack region of the image stays blank. Also proved: the two assemblers agree except where this README says they do not, and every checker report is an error.

`Cpus.Cpu.Tick` orchestrates the emulator. `Linker.CompileMultiple` produces the image that `Memory.Ram.Load` accepts.

Four behaviours of the code are easy to miss; the model has them exactly as the code does:

- **Branch conditions.** The jump multiplexer reads Z from bit 0, N from bit 1, C from bit 2 and V from bit 3, and sub-opcode 1 tests Z, not C (`control_unit.cpp:128-142`). JGE (sub-opcode 10) is the same test as JL (sub-opcode 7).
- **Overflow.** The ALU stores the sign bits it compares in `uint8_t` variables, which truncates them to 0 (`alu.cpp:62-64`). So overflow is never set, for ADD and SUB as for every other operation.
- **Flip-flop key.** `TemporaryValues::GetValues` reads the flip-flop under a misspelt key, so its `isCurrAddrBase` output is always clear (`temp_values.hpp:66-77`).
- **Reset and FLAGS.** A register-file reset zeroes the general, special and instruction registers but never touches the flag register (`registers.hpp:276-286`).

## Model

| member | source | states |
|---|---|---|
| Words.Wrap16 | emulator/src/backend/alu/alu.cpp:16-17 | the cast to `uint16_t` keeps the value modulo 2^16 |
| Alu.Sum | emulator/src/backend/alu/alu.cpp:15-18 | ADD is the sum, less 2^16 when it does not fit in 16 bits |
| Alu.Difference | emulator/src/backend/alu/alu.cpp:20-24 | SUB is the difference, plus 2^16 when it is negative |
| Alu.Quotient | emulator/src/backend/alu/alu.cpp:30-32 | DIV is the floor quotient; a zero divisor gives 0 |
| Alu.Remainder | emulator/src/backend/alu/alu.cpp:33-35 | MOD is below the divisor and completes the division identity; a zero divisor gives 0 |
| Alu.QuotientBound | emulator/src/backend/alu/alu.cpp:31 | an unsigned quotient is no larger than the dividend, so it fits in a word |
| Alu.TruncatedMsb | emulator/src/backend/alu/alu.cpp:62-64 | storing `x & 0x8000` in a `uint8_t` always gives 0 |
| Alu.GetAluData | emulator/src/backend/alu/alu.cpp:7-77 | a disabled ALU gives the all-zero record. Zero and negative follow the result. ADD's carry is the 17th bit of the sum, and SUB's carry means a borrow. A zero divisor gives 0. NAND and NOR give 0 or 1. NOT complements. Unused selectors give 0. Overflow is never set |
| Alu.SubUndoesAdd | emulator/src/backend/alu/alu.cpp:15-24 | SUB of b undoes ADD of b, modulo 2^16 |
| Alu.DivModIdentity | emulator/src/backend/alu/alu.cpp:30-35 | for a non-zero divisor, quotient × divisor + remainder is the dividend, and the remainder is below the divisor |
| Alu.NotIgnoresB | emulator/src/backend/alu/alu.cpp:51-53 | NOT ignores its second operand and undoes itself |
| Alu.SubAlias | emulator/src/backend/alu/alu.cpp:20-24 | selector 10 gives exactly what selector 1 gives, flags included |
| Clocks.ClockSignal | emulator/src/backend/clock.hpp:43-45 | the signal is the level, held low while halted |
| Clocks.Clock.constructor | emulator/src/backend/clock.hpp:10-18 | the level starts low and the frequency starts at 0 |
| Clocks.Clock.Increment | emulator/src/backend/clock.hpp:38-41 | the level flips and the frequency is kept |
| Clocks.Clock.SetFrequency | emulator/src/backend/clock.hpp:51-53 | the frequency is stored as given and the level is kept |
| Clocks.Clock.Reset | emulator/src/backend/clock.hpp:55-58 | the level goes low and the frequency is kept |
| Memory.FieldsRebuildWord | emulator/src/backend/memory/ram.cpp:36-38 | the 5-6-5 colour fields are in range and rebuild the word |
| Memory.ScaleBounds | emulator/src/backend/memory/ram.cpp:40-42 | scaling a channel to 0..255 is monotone and maps 0 to 0 and the top value to 255 |
| Memory.PixelFor | emulator/src/backend/memory/ram.cpp:23-46 | a screen address is a pixel on the 128-wide screen at base + y·128 + x; each channel is its 5-6-5 field times 255 divided by the field's top value, rounded down, so it lies in 0..255; alpha is 255 |
| Memory.ScaleStrict | emulator/src/backend/memory/ram.cpp:40-42 | scaling a 5- or 6-bit field to 0..255 is strictly increasing, so no two levels share a channel value |
| Memory.PixelColorDeterminesWord | emulator/src/backend/memory/ram.cpp:36-44 | two words written at the same screen address paint the same colour exactly when they are equal |
| Memory.PixelPositionsDistinct | emulator/src/backend/memory/ram.cpp:25-33 | two screen addresses give the same pixel position exactly when they are equal |
| Memory.WriteEvent | emulator/src/backend/memory/ram.cpp:21-23 | a pixel is drawn exactly when the write is clocked and the address is in the screen window |
| Memory.Store | emulator/src/backend/memory/ram.cpp:21-22 | an unclocked write changes nothing; a clocked write stores the data at the address and nowhere else |
| Memory.Ram.constructor | emulator/src/backend/memory/ram.hpp:24-28 | a new RAM holds 65536 zero words |
| Memory.Ram.Write | emulator/src/backend/memory/ram.cpp:17-49 | the memory becomes `Store` of the old memory, and the drawn pixel is `WriteEvent` |
| Memory.Ram.Reset | emulator/src/backend/memory/ram.cpp:51-54 | every word becomes 0 |
| Memory.Ram.Load | emulator/src/backend/memory/ram.hpp:54-56 | the memory becomes the first 65536 words of the vector |
| MemoryInterfaces.AddressPriority | emulator/src/backend/memory/memory_interface.cpp:14-29 | the RAM address is, in priority order: SP for a stack access, RB for a register-addressed access, the address register for an absolute non-jump access, and the PC otherwise |
| MemoryInterfaces.LatchIsOneShot | emulator/src/backend/memory/memory_interface.cpp:31-38 | the write latch changes only with the clock low. An extension word clears it. It never stays set over two low-clock evaluations. Otherwise it is set exactly when a write or a call is pending |
| MemoryInterfaces.OutputsMeaning | emulator/src/backend/memory/memory_interface.cpp:40-42 | a write is requested by the latch or by a register-addressed access. The RAM clock is inverted during a stack access. A call stores PC + 2 |
| MemoryInterfaces.ApplyChangesOneWord | emulator/src/backend/memory/memory_interface.hpp:46-49 | a word changes only at the chosen address, and only for a clocked write request; that write stores the data |
| MemoryInterfaces.MemoryInterface.constructor | emulator/src/backend/memory/memory_interface.hpp:20-26 | the latch starts clear |
| MemoryInterfaces.MemoryInterface.GetMiData | emulator/src/backend/memory/memory_interface.cpp:10-45 | the latch becomes `NextLatch` of the old latch, and the result is `MiOutputs` of the new latch |
| MemoryInterfaces.MemoryInterface.OnClockChange | emulator/src/backend/memory/memory_interface.hpp:46-49 | a requested write is passed to the RAM (`Apply`), with its pixel event |
| MemoryInterfaces.MemoryInterface.Reset | emulator/src/backend/memory/memory_interface.hpp:51-54 | the latch is cleared and the RAM is zeroed |
| ControlUnit.Opcode | emulator/src/backend/control_unit/control_unit.cpp:14 | the opcode is the top three bits, a value below 8 |
| ControlUnit.SubOpcode | emulator/src/backend/control_unit/control_unit.cpp:15 | the sub-opcode is bits 12-9, a value below 16 |
| ControlUnit.OpData | emulator/src/backend/control_unit/control_unit.cpp:16 | the operand field is the low nine bits |
| ControlUnit.DecodeEncode | emulator/src/backend/control_unit/control_unit.cpp:14-16 | opcode, sub-opcode and the three register fields rebuild the instruction word |
| ControlUnit.EncodeDecode | emulator/src/backend/control_unit/control_unit.cpp:14-16 | decoding an assembled word gives back each field |
| ControlUnit.AluSelector | emulator/src/backend/control_unit/control_unit.cpp:18-76 | the ALU selector is non-zero exactly for opcode 0 with sub-opcodes 0-9 and for opcode 1 with sub-opcodes 10-11, and then it is 16 + sub-opcode |
| ControlUnit.GetCuData | emulator/src/backend/control_unit/control_unit.cpp:10-208 | each decoder signal is raised exactly for the opcode and sub-opcode pairs of its rows (if and only if): the ALU selector is `AluSelector` of the opcode and sub-opcode, non-zero for the ALU rows; register writes; STORE/STORER alone write memory and CMP alone the flags; every jump loads the PC, 11 calls and 12 returns; the stack signals; a jump carries its address exactly when the flag multiplexer selects it; the two-word instructions; HLT, IN and OUT with their ports |
| ControlUnit.DecodedFieldsRebuildWord | emulator/src/backend/control_unit/control_unit.cpp:99-102 | the decoded register fields, with opcode and sub-opcode, rebuild the word, so the decoder loses no operand bit |
| ControlUnit.FlagsOnlyAffectJumps | emulator/src/backend/control_unit/control_unit.cpp:120-152 | the flag register changes the decoded signals only for the jump group |
| TempValues.Outputs | emulator/src/backend/temp_values/temp_values.cpp:67-74 | the address output is set exactly when the base or the jump-address flip-flop is set |
| TempValues.ValuesMissAddrBase | emulator/src/backend/temp_values/temp_values.hpp:66-77 | `GetValues` reads the misspelt key `IS_CURR_ADR_BASE`, so its base output is always clear; the combined address output still reads both real keys |
| TempValues.StepMapPerformsFlopStep | emulator/src/backend/temp_values/temp_values.cpp:11-65 | a clock change keeps the flip-flop table well formed, updates it as the per-flip-flop step does, and neither adds nor removes the misspelt key |
| TempValues.OutputsOfStep | emulator/src/backend/temp_values/temp_values.cpp:67-74 | the outputs after a clock change are the stepped flip-flops, with the address output the disjunction of base and jump address |
| TempValues.EntriesStayBits | emulator/src/backend/temp_values/temp_values.cpp:11-65 | every flip-flop holds 0 or 1 after a step, after a `GetValues` and in the initial table |
| TempValues.InitialMapCleared | emulator/src/backend/temp_values/temp_values.hpp:56-64 | the initial table is well formed, has every flip-flop clear, and lacks the misspelt key |
| TempValues.LowEdgeOnlyLoadsAddrBase | emulator/src/backend/temp_values/temp_values.cpp:58-65 | with the clock low only the base-address flip-flop changes; it is set exactly for an address-carrying non-call instruction |
| TempValues.HighEdgeKeepsAddrBase | emulator/src/backend/temp_values/temp_values.cpp:11-57 | with the clock high the base-address flip-flop is kept, and the others do not depend on it |
| TempValues.JsrForcesExtensionWord | emulator/src/backend/temp_values/temp_values.cpp:12-14 | a call seen on a high edge marks the next high edge as an extension word |
| TempValues.TemporaryValues.constructor | emulator/src/backend/temp_values/temp_values.hpp:56-64 | the table starts as the seven cleared flip-flops |
| TempValues.TemporaryValues.GetValues | emulator/src/backend/temp_values/temp_values.hpp:66-77 | the result is read from the old table, and `operator[]` inserts the misspelt key as 0 |
| TempValues.TemporaryValues.OnClockChange | emulator/src/backend/temp_values/temp_values.cpp:7-79 | the table becomes the stepped table and the result is read from it |
| TempValues.TemporaryValues.Reset | emulator/src/backend/temp_values/temp_values.hpp:83-93 | the table is back to the seven cleared flip-flops, so the misspelt key is gone |
| Registers.RegisterFromString | emulator/src/backend/registers/registers.hpp:27-39 | a name is accepted exactly when it is one of the fourteen register names, and its index is that of its first occurrence; any other name fails with `Invalid register name: ` and the name |
| Registers.Update16 | emulator/src/backend/registers/registers.hpp:57-66 | a reset stores 0; otherwise the data is stored |
| Registers.Update4 | emulator/src/backend/registers/registers.hpp:57-66 | a reset stores 0; otherwise the stored value is the byte's low four bits (below 16 and congruent to it modulo 16), so a byte below 16 is stored as given |
| Registers.PackFlagsBits | emulator/src/backend/registers/registers.cpp:33-37 | Z, N, C and V sit in bits 0, 1, 2 and 3 of the packed flags |
| Registers.PackFlagsInjective | emulator/src/backend/registers/registers.cpp:33-37 | two flag packings are equal exactly when all four flags are |
| Registers.ChangeStepFrame | emulator/src/backend/registers/registers.cpp:13-47 | a clock change writes the selected general register only with its clock low and a write request; the PC, SP and RAM address register change only when clocked, the RAM address register loads IR1, and the instruction registers are untouched; FLAGS changes only on a clocked flag write |
| Registers.PcAdvances | emulator/src/backend/registers/registers.cpp:22-24 | a clocked PC takes the written value, or else advances by one and wraps from 0xFFFF to 0 |
| Registers.PushThenPopRestoresSp | emulator/src/backend/registers/registers.cpp:27-29 | a push followed by a pop restores SP, and a push from 0 wraps to 0xFFFF |
| Registers.FlagsLoadReadsBack | emulator/src/backend/registers/registers.cpp:33-41 | after a clocked flag write each flag bit reads back as the ALU flag given |
| Registers.IdleStepFrame | emulator/src/backend/registers/registers.cpp:59-75 | an idle step changes only the instruction registers: IR0 on a low clock with a write request, IR1 when clocked |
| Registers.SetThenGet | emulator/src/backend/registers/registers.hpp:202-255 | a register that was set reads back as the value (the flags as its low four bits), and every other register is unchanged |
| Registers.UnknownNameIgnored | emulator/src/backend/registers/registers.hpp:226-227 | setting a register that is not in the enumeration changes nothing, and reading it gives 0 |
| Registers.ResetKeepsFlags | emulator/src/backend/registers/registers.hpp:276-286 | a reset zeroes every register except the flag register, which it keeps |
| Registers.RegisterFile.constructor | emulator/src/backend/registers/registers.hpp:158-178 | every register starts at 0 |
| Registers.RegisterFile.OnClockChange | emulator/src/backend/registers/registers.cpp:8-57 | the registers take `ChangeStep` of the old ones and the outputs are read after the update |
| Registers.RegisterFile.OnClockIdle | emulator/src/backend/registers/registers.cpp:59-75 | the registers take `IdleStep` of the old ones and the outputs are the new IR0 and IR1 |
| Registers.RegisterFile.SetRegValue | emulator/src/backend/registers/registers.hpp:202-229 | the registers become `SetReg` of the old ones |
| Registers.RegisterFile.Reset | emulator/src/backend/registers/registers.hpp:276-286 | the registers become `ResetRegs` of the old ones |
| Cpus.PcClock | emulator/src/backend/cpu.cpp:128-140 | the PC is clocked exactly on a high clock outside a call, a stack access, a register-addressed access and a stack change being started; the extra `REG_IS_ADDR` term can only be set with the clock low, so it never matters |
| Cpus.SampleStep | emulator/src/backend/cpu.cpp:8-16 | taking the snapshot keeps the flip-flop table well formed |
| Cpus.EdgeStep | emulator/src/backend/cpu.cpp:19-29 | the clock edge flips the level, keeps the frequency and the table well formed, and paints at most one pixel |
| Cpus.FinishStep | emulator/src/backend/cpu.cpp:32-49 | the read-ahead and the idle update keep the table well formed and change neither the level, the frequency nor the painted pixels |
| Cpus.TickSpec | emulator/src/backend/cpu.cpp:6-50 | a tick flips the level, keeps the frequency and the table well formed, and appends at most one painted pixel |
| Cpus.Cpu.constructor | emulator/src/backend/cpu.hpp:15-24 | a new processor has the clock low, frequency 0, the initial flip-flops, zero registers and RAM, a clear latch and zero ports |
| Cpus.Cpu.UpdateTemporaryValuesOnClock | emulator/src/backend/cpu.cpp:70-83 | the flip-flops take the step built from the old decoder outputs and old temporaries (a call only when none is in progress, an address only on an extension word or a call), and the result is read from them |
| Cpus.Cpu.UpdateRegistersOnClock | emulator/src/backend/cpu.cpp:85-154 | the registers take `ChangeStep` with the inputs the source wires up: write data from IN, RAM, IR1 or the ALU, the gated PC clock, the PC source (RAM for a return, IR1 otherwise), the SP clock on a low edge, and the flags clocked high |
| Cpus.Cpu.UpdateRAMOnClock | emulator/src/backend/cpu.cpp:156-163 | the latch takes `NextLatch` with the source's write request (a push, or a store on its extension word or register-addressed), and the RAM takes `Apply` of the resulting request |
| Cpus.Cpu.UpdateRegistersOnIdle | emulator/src/backend/cpu.cpp:165-177 | the instruction registers take `IdleStep` with IR0 loaded from RAM, or IR1 loaded on an extension word |
| Cpus.Cpu.Sample | emulator/src/backend/cpu.cpp:8-16 | the snapshot is read from the old state and the state becomes `SampleStep` of it (the misspelt key is inserted) |
| Cpus.Cpu.ClockEdge | emulator/src/backend/cpu.cpp:18-29 | the new state, clock signal and temporaries are `EdgeStep` of the old state and the snapshot |
| Cpus.Cpu.Finish | emulator/src/backend/cpu.cpp:31-49 | the new state is `FinishStep` of the old state |
| Cpus.Cpu.Tick | emulator/src/backend/cpu.cpp:6-50 | the new state is `TickSpec` of the old state |
| Cpus.Cpu.RunFrame | emulator/src/backend/cpu.cpp:179-190 | after a frame the state is `Ticks` of the old state with ten ticks per unit of the old frequency, and one tick at frequency 0 or below |
| Cpus.Cpu.RunTicks | emulator/src/backend/cpu.cpp:183-185 | the loop of `n` calls to `Tick` leaves `Ticks` of the old state after `n` ticks |
| Cpus.TicksKeepFrequency | emulator/src/backend/cpu.cpp:179-190 | over `n` ticks the frequency is kept, the level toggles `n` times, and the painted pixels only grow, by at most one per tick |
| Cpus.TicksAdd | emulator/src/backend/cpu.cpp:179-190 | running `a` ticks and then `b` more equals running `a + b` ticks, so consecutive frames compose |
| Cpus.TicksNext | emulator/src/backend/cpu.cpp:6-50 | from a state with well-formed flip-flops, one more tick is `TickSpec` |
| Cpus.Cpu.Init | emulator/src/backend/cpu.cpp:192-227 | the new state is `InitSpec` of the old state |
| Cpus.Cpu.Reset | emulator/src/backend/cpu.cpp:229-236 | the new state is `ResetSpec` of the old state |
| Cpus.Cpu.SetInput | emulator/src/backend/cpu.cpp:116 | an input port takes the value and nothing else changes |
| TickProperties.WriteLatchClearedByReadAhead | emulator/src/backend/cpu.cpp:28-37 | on a tick that takes the clock low, a write latched at the edge is cleared again by the read-ahead's second evaluation of the latch |
| TickProperties.LatchHeldOnHighTick | emulator/src/backend/cpu.cpp:28-37 | on a tick that takes the clock high without a halt, the latch keeps its value |
| TickProperties.HaltFreezesRegisters | emulator/src/backend/cpu.cpp:20-26 | a halted processor keeps PC, FLAGS and the general registers |
| TickProperties.InitState | emulator/src/backend/cpu.cpp:200-226 | `Init` loads RAM[0] into IR0 and 0xFFFF into SP, records RAM[0] and address 0, and keeps every other register |
| TickProperties.ResetState | emulator/src/backend/cpu.cpp:229-236 | after `Reset` the clock is low, the flip-flops, latch and RAM are clear, PC and IR0 are 0, SP is 0xFFFF and FLAGS keeps its old value |
| TickProperties.InitAluInfoVersusDecoder | emulator/src/backend/cpu.cpp:205-219 | `Init` builds the decoder's ALU request, except for opcode 0 with sub-opcodes 10-15, which the decoder disables and `Init` turns into 26-31 |
| BranchSemantics.UnsignedJumpsAfterCompare | emulator/src/backend/control_unit/control_unit.cpp:128-142 | after `CMP a, b`, the jumps with sub-opcodes 1-6 are taken exactly for `==`, `!=`, `<`, `<=`, `>` and `>=` |
| BranchSemantics.SignedJumpsAfterCompare | emulator/src/backend/control_unit/control_unit.cpp:136-139 | after a compare, JL tests only the sign of the 16-bit difference, JGE is the same test as JL, and rows 8 and 9 combine it with equality |
| BranchSemantics.SignedLessIgnoresOverflow | emulator/src/backend/control_unit/control_unit.cpp:136 | for every pair of words, JL agrees with signed less-than exactly when the signed difference fits in sixteen bits; 0x7FFF against 0x8000 is a pair where it does not |
| Text.Upper | tools/compiler.py:97 | `str.upper()` keeps the length and upper-cases each character (ASCII letters only) |
| Text.Lower | tools/compiler.py:180 | `str.lower()` keeps the length and lower-cases each character (ASCII letters only) |
| Text.Trim | tools/compiler.py:27 | `strip()` is the text after the leading run with a run of stripped characters cut off its end: the result starts and ends outside the run, and is empty exactly when every character is in it |
| Text.BeforeFirst | tools/compiler.py:27 | `s.split(c)[0]` is the longest prefix without `c`, followed in `s` by `c` when it is shorter than `s` |
| Text.Tokens | tools/compiler.py:96-100 | the tokens of a split are non-empty, hold no separator, and read one after another are the text with its separators removed |
| Text.TokensOfJoin | tools/compiler.py:96-100 | splitting words joined by single spaces gives the words back when no word is empty or holds a separator |
| Text.ReplaceOnce | tools/compiler.py:204 | when the target occurs in `a + target + b` only between `a` and `b`, `str.replace` gives `a + replacement + b` |
| Text.RemovedAppend | tools/compiler.py:96-100 | removing the separators from a concatenation removes them from each part |
| Text.FindFrom | tools/compiler.py:132 | `str.find` returns the first occurrence at or after the start, or -1 exactly when there is none |
| Text.ToDigits | tools/compiler.py:58 | the digits of a number in a base: at least one, each below the base |
| Text.DigitsRoundTrip | tools/compiler.py:163 | reading back the digits `bin`/`hex` write gives the number |
| Text.DigitsFit | tools/compiler.py:58 | a number has at most k digits exactly when it is below base^k, so `zfill(16)` pads instead of overflowing exactly for 16-bit values |
| Text.ZFill | tools/compiler.py:58 | `zfill(n)` has length max(\|s\|, n) and ends with `s` |
| Text.ZFilledDigits | tools/compiler.py:163 | zero-padded digits read back as the number and have exactly the width when the number fits |
| Text.HexWord | tools/compiler.py:163 | `hex(v)[2:].zfill(4)` is lower-case hex that parses back to v, and has four digits exactly when v is below 0x10000 |
| Text.BinWord | tools/compiler.py:58 | `bin(v)[2:].zfill(16)` of a 16-bit value is sixteen bits whose value is v |
| Text.ParseRendered | tools/compiler.py:163 | parsing the rendered digits gives the number back |
| Text.PyInt | tools/compiler.py:182-188 | `int(s, base)` succeeds only on text that is not blank once stripped |
| Text.PyIntOfDigits | tools/compiler.py:188 | `int` of digits of the base is their value |
| Text.PyIntOfNegative | tools/compiler.py:188 | `int` of `-` and digits is minus their value |
| Text.PyIntOfPrefixed | tools/compiler.py:182-184 | `int` accepts a `0x` or `0b` prefix in base 16 or 2 and gives the value of the digits after it |
| Labels.LabelName | tools/compiler.py:123 | the defined name is the label line without its colon |
| Labels.FirstPass | tools/compiler.py:118-127 | the loop builds the table `LabelsOf`: each label maps to the address reached so far, and later definitions overwrite earlier ones |
| Labels.LabelAddress | tools/compiler.py:118-127 | a name is in the table exactly when some label line defines it; its address is the start plus the words of the lines before its last definition |
| Labels.WordsOfAppend | tools/compiler.py:226 | the words of two blocks of lines add up |
| Labels.WordsOfBounded | tools/compiler.py:118-126 | a count no larger on every instruction line gives no more words |
| Labels.WordsOfAgree | tools/compiler.py:252-266 | two counts that agree on every instruction line give the same words |
| Assembler.StackOverlapIsCropCondition | tools/compiler.py:11-12 | for a segment below the stack, `is_stack_overlap` holds exactly when the word count exceeds the room before the stack, which is the cropping condition |
| Assembler.OpcodeTableWellFormed | tools/compiler.py:65-77 | every mnemonic of the table maps to a 3-bit opcode and a 4-bit sub-opcode |
| Assembler.OpCodeToBinOpCode | tools/compiler.py:63-82 | a mnemonic is known exactly when its stripped upper-case form is in the table; it then gives seven bits, and otherwise fails with `Unknown instruction: ` and the name |
| Assembler.MnemonicCaseInsensitive | tools/compiler.py:64 | any spelling that strips and upper-cases to a mnemonic gives that mnemonic's bits |
| Assembler.RegisterCodes | tools/compiler.py:85-88 | the register table holds exactly R0-R7, each as three bits worth its number |
| Assembler.DataToBinData | tools/compiler.py:84-89 | the register fields are three bits per register, each worth that register's number |
| Assembler.RegisterTokens | tools/compiler.py:102 | the registers kept are register names, no more than the tokens; what they are, in order, is stated by `Assembler.RegisterTokensAppend` |
| Assembler.RegisterTokensAppend | tools/compiler.py:102 | the collection goes token by token: the registers of two token lists joined are those of the first followed by those of the second, and one token gives its upper-case form exactly when that is a register name |
| Assembler.OtherTokens | tools/compiler.py:104 | the tokens kept for the immediate are tokens of the line whose upper-case form is not a collected register; what they are, in order, is stated by `Assembler.OtherTokensAppend` |
| Assembler.OtherTokensAppend | tools/compiler.py:104 | the filter goes token by token: the tokens kept from two lists joined are those kept from the first followed by those kept from the second, and one token is kept, unchanged, exactly when its upper-case form is not a collected register |
| Assembler.ParseLine | tools/compiler.py:91-107 | the mnemonic is empty exactly for a line that is blank before its `;`. A mnemonic has no white space. The registers are register names. An immediate is non-empty |
| Assembler.ParseLineOfWords | tools/compiler.py:91-107 | a line written as a mnemonic and operand words (no comma, white space or `;` in any of them) separated by single spaces parses back to the upper-cased mnemonic, the upper-cased register operands in order, and the other operands joined by single spaces, or no immediate when there are none |
| Assembler.InstructionWordCount | tools/compiler.py:112-116 | a line takes at most two words |
| Assembler.FirstPass | tools/compiler.py:118-127 | the linker's table is `LabelsOf` with its word count |
| Assembler.ImmediateValue | tools/compiler.py:196-207 | the value an immediate reaches `ImmediateToBin` with: an operand naming a label (ignoring case) was rewritten by `ReplaceLabelsAndConstants` to the label's address, one naming both a label and a constant to the label's, and one naming only a constant to its value; anything else is handed to `evaluate` |
| Assembler.ImmediateToBin | tools/compiler.py:58 | the immediate is sixteen bits worth the value modulo 2^16, negative values included |
| Assembler.ImmediateWord | tools/compiler.py:35-61 | a successful immediate is a 16-bit field; it fails exactly when the immediate has no value, with the message naming the immediate |
| Assembler.FirstWord | tools/compiler.py:140-160 | the first word is sixteen bits and starts with the opcode bits |
| Assembler.EncodeOperands | tools/compiler.py:140-160 | one or two 16-bit words. The first is `FirstWord`. There is a second exactly when at most one register and an immediate are given, and only that case can fail |
| Assembler.EncodeParsed | tools/compiler.py:135-160 | at most two 16-bit words. The first starts with the opcode. Two words exactly for at most one register with an immediate. None for a blank line or more than three registers |
| Assembler.LineToBinary | tools/compiler.py:135-160 | a line encodes to at most two 16-bit words, the first starting with its mnemonic's opcode bits |
| Assembler.WordCountOfLine | tools/compiler.py:112-116 | the words a line encodes to agree with `InstructionWordCount` up to one register. Two or three registers give one word. Four or more give none, where `InstructionWordCount` still counts them |
| Assembler.BinToHex | tools/compiler.py:162-163 | the hex text parses back to the binary value, is lower case, and has four digits exactly for a 16-bit value |
| Assembler.WordToHex | tools/compiler.py:162-163 | a 16-bit word prints as four hex digits |
| Encoding.WordFields | emulator/src/backend/control_unit/control_unit.cpp:14-16 | the bit groups of an assembled word are the fields the decoder reads |
| Encoding.FieldsOfGroups | tools/compiler.py:156-160 | a 7-bit opcode and three register groups decode to that opcode, sub-opcode and register fields |
| Encoding.FirstWordFields | tools/compiler.py:140-160 | the decoder reads back the assembler's register placement for each layout: no register, one register with an immediate (STORE's in RA), PUSH/POP, CMP/STORER with two, the other two-register forms, three registers |
| Linker.DefineParts | tools/compiler.py:175-177 | `split(maxsplit=2)` gives three parts when it succeeds: two words without white space and a rest that starts outside white space |
| Linker.DefinePartsOfLine | tools/compiler.py:175-177 | a keyword, a name and a value separated by single spaces split back into those three parts |
| Linker.ConstantValue | tools/compiler.py:180-188 | a value starting `0x` (any case) is read as hex, one starting `0b` as binary, both on the lower-cased text |
| Linker.DecimalConstant | tools/compiler.py:185-188 | a decimal value that does not name a constant defines its decimal value |
| Linker.ReferenceConstant | tools/compiler.py:185-186 | a value that starts with a letter and names a constant defined earlier copies that constant's value |
| Linker.ParseConstants | tools/compiler.py:165-194 | the loop builds the table `ConstantsOf` |
| Linker.ConstantsComeFromDefines | tools/compiler.py:172-189 | every constant comes from an `@define` line whose name, upper-cased, is the constant |
| Linker.OtherLinesKeepConstants | tools/compiler.py:174 | lines that are not `@define` lines add nothing to the table |
| Linker.WithoutDefines | tools/compiler.py:224 | every kept line is an input line that is not an `@define` line, and every input line that is not one is kept |
| Linker.WithoutDefinesAppend | tools/compiler.py:224 | the filter distributes over concatenation and keeps a single line exactly when it is no `@define` line, so it keeps the non-define lines in order with their multiplicities |
| Linker.CropFrom | tools/compiler.py:235-246 | the cropped lines are a prefix of the lines |
| Linker.CropBound | tools/compiler.py:235-246 | the cropped lines take at most the room before the stack. When a line was cut, it is an instruction that would not have fit |
| Linker.Crop | tools/compiler.py:235-246 | the loop, with each line counted by `count` (`InstructionWordCount` in `CompileMultiple`), keeps exactly `CropFrom` of the lines from zero words used |
| Linker.CropFits | tools/compiler.py:237-245 | the kept lines, counted from the words already used, fit in the room before the stack |
| Linker.CropStops | tools/compiler.py:238-243 | cropping stops before a line only when that line is an instruction whose words would not fit |
| Linker.CropEnd | tools/compiler.py:237-245 | the index where the cropping loop stops lies between the current index and the end |
| Linker.CropFromEnd | tools/compiler.py:237-246 | the lines the loop keeps from index `i` on are `CropFrom` of the remaining lines |
| Linker.WordsOfCons | tools/compiler.py:226 | a label adds no words in front of a list and an instruction adds its count |
| Linker.Prepare | tools/compiler.py:216-250 | a segment is kept exactly when it starts below the stack. Its constants are those of its `@define` lines. Its lines are a prefix of the non-define lines that ends before the stack. It is cropped only when it would overlap the stack |
| Linker.PreparedFit | tools/compiler.py:227-246 | every kept segment starts below the stack, ends before it, and comes from a given segment |
| Linker.LaterSegmentWins | tools/compiler.py:249 | in the global table a label of a later segment overrides an earlier one, and other labels keep their earlier entry |
| Linker.BlankImage | tools/compiler.py:210 | the image starts as 65536 entries of `"0000"` |
| Linker.ListIndex | tools/compiler.py:262 | a non-negative address indexes the image exactly when it is below 65536 |
| Linker.HexWords | tools/compiler.py:261-262 | every word of a line becomes one hex entry |
| Linker.HexWordAt | tools/compiler.py:261-262 | the k-th hex entry is `BinToHex` of the k-th word |
| Linker.HexOfWord | tools/compiler.py:162-163 | a 16-bit word becomes four lower-case hex digits that parse back to its value |
| Linker.HexWordsWellFormed | tools/compiler.py:261-262 | every hex entry of a line is four lower-case digits worth its word |
| Linker.EmitWords | tools/compiler.py:261-263 | writing words keeps the image at 65536 entries |
| Linker.EmitWordsWellFormed | tools/compiler.py:261-263 | writing four-digit entries keeps every entry four hex digits |
| Linker.EmitWordsFrame | tools/compiler.py:261-263 | the words land at consecutive addresses from the start address, inside the image, and nothing else changes |
| Linker.HexLine | tools/compiler.py:259-266 | a line's entries exist exactly when `LineToBinary` succeeds, with its error otherwise; there is one four-digit entry per word, worth that word |
| Linker.LineTranslator | tools/compiler.py:258-259 | the translator used for every line yields hex words, no more than `InstructionWordCount`, and is `HexLine` |
| Linker.LineToBinaryTranslates | tools/compiler.py:259 | a line never encodes to more words than `InstructionWordCount` counts for it |
| Linker.EmitLines | tools/compiler.py:252-266 | writing a segment keeps the image at 65536 well-formed entries |
| Linker.EmitLinesFrame | tools/compiler.py:252-266 | writing a segment changes only the addresses from its base up to the words it counts |
| Linker.EmitAll | tools/compiler.py:252-266 | writing every segment keeps the image at 65536 well-formed entries |
| Linker.Compile | tools/compiler.py:209-266 | a successful compilation gives 65536 four-digit hex entries |
| Linker.EmitAllFrame | tools/compiler.py:252-266 | segments that end below an address leave the image unchanged from there up |
| Linker.StackRegionStaysBlank | tools/compiler.py:227-246 | for segments with non-negative bases, a successful link is a well-formed image whose entries from 0xF000 up all stay `"0000"` |
| Linker.WriteWords | tools/compiler.py:261-263 | the array loop writes what `EmitWords` describes, or fails with its error |
| Linker.WriteSegment | tools/compiler.py:253-266 | the per-segment loop writes what `EmitLines` describes, or fails with its error |
| Linker.WriteLine | tools/compiler.py:254-266 | one iteration writes the first line and leaves `EmitLines` of the rest from the next address |
| Linker.CompileMultiple | tools/compiler.py:209-266 | the method returns `Compile` of the segments with lines rewritten by `ReplaceLabelsAndConstants` before translation, as written |
| Linker.ReplaceLabelsAndConstants | tools/compiler.py:196-207 | a line without an immediate, with an immediate naming neither a label nor a constant, or with no occurrence of the immediate, is left unchanged; a changed line is one counted for two words. What a rewrite produces is stated by `Linker.RewrittenOperand` |
| Linker.RewrittenOperand | tools/compiler.py:196-207 | when the immediate's text occurs in the line only where the operand stands, the rewritten line is the line with that operand replaced by the label's address as `0x` and four hexadecimal digits, or else, when the immediate names a constant and no label, by the constant's decimal value |
| Linker.WrittenLine | tools/compiler.py:258-266 | a line the rewrite leaves unchanged translates as `HexLine`; a line never yields more words than the first pass counted |
| Linker.SegmentTranslator | tools/compiler.py:258-259 | the translator yields hex words within `InstructionWordCount`; as written it is `WrittenLine`, corrected it is `HexLine` |
| Placement.WordsOfPrefix | tools/compiler.py:118-126 | an instruction line's words come after the words of the lines before it and within the words of the whole list |
| Placement.EmitLinesPlacement | tools/compiler.py:253-266 | when the translator yields exactly the counted words, every instruction line of a segment is written at the base plus the words of the lines before it |
| Placement.EmitAllKeeps | tools/compiler.py:252-266 | an address outside every segment's counted range keeps the entry it had before linking |
| Placement.EmitAllPlacement | tools/compiler.py:252-266 | each instruction line's words land at the address the second loop reached for it, unless a later segment overlaps its segment |
| Placement.CompilePlacement | tools/compiler.py:209-266 | in a successful link, each instruction line of a segment no later segment overlaps is written where the second loop reached it, and that address is its base plus the words the first pass counted before it, provided those lines took their counted words |
| Placement.ReachedAsCounted | tools/compiler.py:118-126 | when the lines before took their counted words, the second loop reaches a line at the address the first pass reached |
| Placement.CountedWithOneRegister | tools/compiler.py:252-266 | lines that translate and have at most one register take exactly the words counted for them |
| Placement.LabelBeforeLine | tools/compiler.py:118-126 | a label just before a line gets the address the first pass reaches at that line, so a jump to it lands on that line's words |
| Linker.PrepareAll | tools/compiler.py:216-250 | the first loop builds the kept segments `PreparedOf` and the global table `GlobalLabels` |
| Linker.PrepareSegment | tools/compiler.py:217-250 | one segment is prepared as `Prepare` says |
| Linker.WriteAll | tools/compiler.py:252-266 | the second loop writes what `EmitAll` describes, or fails with its error |
| Legacy.OpcodeTable | main.py:36-48 | the older table is well formed. It has every mnemonic of the linker's table except STORER, with the same codes, and no mnemonic encodes as STORER |
| Legacy.OpCodeToBinOpCode | main.py:34-53 | a mnemonic is known exactly when its stripped upper-case form is in the older table; it gives seven bits that are never STORER's, and otherwise fails with `Unknown instruction: ` and the name |
| Legacy.OpcodesAgree | main.py:34-53 | the two assemblers agree on every mnemonic except STORER, which only the linker knows |
| Legacy.UpperAll | main.py:69 | every token is upper-cased, in order |
| Legacy.Registers | main.py:70 | the registers kept are register names, no more than the tokens; what they are, in order, is stated by `Legacy.RegistersAppend` |
| Legacy.RegistersAppend | main.py:70 | the filter goes token by token: the registers of two token lists joined are those of the first followed by those of the second, and one token is kept exactly when it is a register name |
| Legacy.FirstNonRegister | main.py:71 | the immediate is the first token that is not a register, and there is none exactly when every token is a register |
| Legacy.ParseLine | main.py:62-72 | a blank line (before `;`) gives no mnemonic, registers or immediate. The registers are register names. An immediate is non-empty and not a register |
| Legacy.ParseLineOfWords | main.py:62-72 | a line written as a mnemonic and operand words (no comma, white space or `;` in any of them) separated by single spaces parses back to the upper-cased mnemonic, the upper-cased register operands in order, and the first upper-cased operand that is not a register |
| Legacy.ParseLinesAgree | main.py:62-72 | the older parser finds the same mnemonic and registers as the linker's, and an immediate exactly when the linker's does |
| Legacy.RegistersAgree | main.py:69-70 | upper-casing then filtering gives the linker's register list |
| Legacy.OthersPresent | tools/compiler.py:104-106 | the linker sees an immediate exactly when some token is not a collected register |
| Legacy.InstructionWordCount | main.py:77-81 | a line takes at most two words |
| Legacy.WordCountsAgree | main.py:77-81 | the older word count equals the linker's on every line |
| Legacy.FirstPass | main.py:83-92 | the loop builds `LabelsOf` with the older word count |
| Legacy.FirstPassesAgree | main.py:83-92 | both assemblers build the same label table |
| Legacy.ImmediateValue | main.py:18-29 | a value exists only for a `0x`/`0b` prefix, a digit string or a known label. Text that is none of these is looked up as a label, case-insensitively |
| Legacy.NumericImmediates | main.py:20-25 | decimal digits give their value, and `0x` or `0b` followed by digits of the base gives the value of those digits |
| Legacy.PrefixedImmediate | main.py:20-23 | a prefixed immediate is read by `int` in its base, before any other rule, and is never negative |
| Legacy.DecimalImmediate | main.py:24-25 | digits without a prefix are read in base 10 |
| Legacy.PrefixedValue | main.py:21-23 | `int` of prefixed text is never negative, and is the value of the digits after the prefix when they are digits of the base |
| Legacy.ImmediateToBin | main.py:18-32 | it fails exactly when no value exists, with `Invalid immediate value: `. It has at least sixteen characters, which read back as the value. It has exactly sixteen for a 16-bit value, where it equals the linker's. A larger value gives a longer string, and a negative one gives no bit string |
| Legacy.ZFilledBinary | main.py:30 | `bin(v)[2:].zfill(16)` without a mask: at least sixteen characters, the value for v ≥ 0, the linker's string below 2^16, not bits for v < 0 |
| Legacy.FirstWord | main.py:105-125 | the older first word equals the linker's for every mnemonic the older table has |
| Legacy.LineToBinary | main.py:100-125 | a line fails exactly for an unknown mnemonic or an unreadable immediate. It gives no words for a blank line or more than three registers. It gives two words exactly for at most one register with an immediate, and never more than `InstructionWordCount`. The first word carries the opcode and the second is `ImmediateToBin` |
| Legacy.LinesAgree | main.py:100-125 | where both assemblers encode a line, they give as many words and the same first word |
| Legacy.BinToHex | main.py:127-128 | bits give the linker's four lower-case digits; the result has at least four characters; it fails only on text that is not bits |
| Legacy.BitsToHex | main.py:128 | `int(binary, 2)` is the bits' value and its lower-cased `hex` filled to four digits is the linker's text |
| Text.ReplaceAll | main.py:97 | `str.replace` leaves a string without occurrences unchanged |
| Legacy.ReplaceLabels | main.py:94-98 | a line without a known label operand, or whose operand does not occur in it, is left unchanged |
| Legacy.RewrittenLabel | main.py:94-98 | when the immediate names a label and its text occurs in the line only where the operand stands, the rewritten line is the line with that operand replaced by the label's address as `0x` and four hexadecimal digits |
| Legacy.AddressLiteralReadsBack | main.py:97 | the `0x%04X` text of a non-negative address reads back as that address, a negative one is rejected, and a label name reads as its address |
| Legacy.IdentifierImmediate | main.py:26-29 | an identifier immediate is the label's address, or unreadable |
| Legacy.NegativeLiteral | main.py:21 | `0x-…` is not accepted by `int` |
| Legacy.EmitWords | main.py:150-152 | writing words keeps the image at 65536 entries |
| Legacy.EmitLines | main.py:142-155 | writing a segment keeps the image at 65536 entries |
| Legacy.EmitWordsKeeps | main.py:150-152 | entries below the start address are not touched |
| Legacy.EmitLinesKeeps | main.py:142-155 | entries below a segment's base are not touched |
| Legacy.FirstWordStored | main.py:143-155 | a segment's first instruction word is stored at its base address |
| Legacy.WrittenTranslator | main.py:147-148 | the translation applied to each line is `ReplaceLabels` and then `LineToBinary` |
| Legacy.LineTranslator | main.py:148 | the corrected translation is `LineToBinary` of the line as written |
| Legacy.LabelOperandEncoded | main.py:26-27 | with the corrected translation, a label operand at a 16-bit address is encoded as that address in the second word |
| Legacy.ParseOfTwoWords | main.py:62-72 | a line of a mnemonic, a space and one operand parses to that mnemonic and that operand, upper-cased |
| Legacy.ShortMnemonics | main.py:36-48 | no mnemonic is longer than five letters |
| Legacy.LiteralCharacters | main.py:97 | an address literal has at least six characters, none a separator |
| Legacy.ReplaceReachesMnemonic | main.py:94-98 | for `JA A` with label `A`, the replacement also rewrites the `A` of `JA`, and the translated line fails |
| Legacy.JumpToLabelEncoded | main.py:100-114 | with the corrected translation, `JA A` encodes as two words; the second is the address of `A` in binary and, for a 16-bit address, the linker's word for it |
| Legacy.ParseJump | main.py:62-72 | `JA A` parses to the mnemonic `JA`, no registers and the identifier `A` |
| Legacy.ReplaceInJump | main.py:97 | `replace` turns both `A`s of `JA A` into the literal |
| Legacy.MangledLineFails | main.py:104 | the rewritten line's first word, `J0x…`, is not a mnemonic, so the line fails |
| Legacy.LongMnemonicUnknown | main.py:49-53 | a word of seven characters or more is never a mnemonic |
| Legacy.EmitAll | main.py:142-155 | writing all segments keeps the image at 65536 entries |
| Legacy.Compile | main.py:130-155 | the corrected compilation gives a 65536-entry image |
| Legacy.CompileAsWritten | main.py:130-155 | the compilation as written also gives a 65536-entry image when it succeeds |
| Legacy.StackRegionNotReserved | main.py:142-155 | nothing keeps a segment out of the stack region: a segment at any address, 0xF000 and up included, has its first word stored there |
| Legacy.EmitOneSegment | main.py:142-155 | compiling one segment is writing its lines from its base |
| Legacy.WriteWords | main.py:150-152 | the array loop writes what `EmitWords` describes, or fails with its error |
| Legacy.WriteLine | main.py:144-155 | one iteration writes the first line and leaves `EmitLines` of the rest |
| Legacy.WriteSegment | main.py:142-155 | the per-segment loop writes what `EmitLines` describes |
| Legacy.GatherLabels | main.py:136-140 | the first loop builds `GlobalLabels` |
| Legacy.CompileMultiple | main.py:130-155 | the method returns `CompileAsWritten`: every line goes through `ReplaceLabels` before it is translated |
| LinkerFindings.ReplaceReachesMnemonic | tools/compiler.py:196-207 | as written, for `JA A` with label `A` the replacement rewrites the `A` of the mnemonic too, giving `J0x… 0x…`, and translating the line fails |
| LinkerFindings.JumpToLabelEncoded | tools/compiler.py:35-61 | with the immediate looked up rather than rewritten, `JA A` is two words whose second holds the address of `A` modulo 0x10000 |
| LinkerFindings.NegativeBaseReachesStack | tools/compiler.py:227-265 | as written, a segment `HLT` at a base from -0x1000 to -1 links, and its word lands at 0x10000 + base, inside the stack region |
| Validator.Messages | asm-lang/vs_code/organ-16-asm-support/server/lsp-server.py:68-77 | one message per report, in order |
| Validator.Decimal | asm-lang/vs_code/organ-16-asm-support/server/lsp-server.py:122 | `str(n)` of a count is a non-empty string of decimal digits |
| Validator.TokensOf | asm-lang/vs_code/organ-16-asm-support/server/lsp-server.py:111 | one token per whitespace-separated word, commas stripped |
| Validator.Parsed | asm-lang/vs_code/organ-16-asm-support/server/lsp-server.py:89 | one reading per line |
| Validator.RegisterErrors | asm-lang/vs_code/organ-16-asm-support/server/lsp-server.py:132-139 | the register check of RRR and RR gives at most one report per operand, all errors |
| Validator.OperandDiagnostics | asm-lang/vs_code/organ-16-asm-support/server/lsp-server.py:131-161 | every report of the checks by format is an error of this server |
| Validator.TableWellFormed | asm-lang/vs_code/organ-16-asm-support/server/lsp-server.py:24-57 | every `VALID_OPCODES` entry has the operand count its format's checks index: at least two for RI and MEM, one for R |
| Validator.BlankLine | asm-lang/vs_code/organ-16-asm-support/server/lsp-server.py:90-92 | a line that is blank or only a comment changes no report, label or use |
| Validator.CommentIgnored | asm-lang/vs_code/organ-16-asm-support/server/lsp-server.py:90 | a comment after `#` or `;` changes neither the label nor the instruction read from a line |
| Validator.CommentCut | asm-lang/vs_code/organ-16-asm-support/server/lsp-server.py:90 | cutting at `#` and then at `;` removes exactly the comment |
| Validator.SameReadingSameReports | asm-lang/vs_code/organ-16-asm-support/server/lsp-server.py:94-183 | two lines read alike give the same messages, label table and used label names; only character positions may differ |
| Validator.InstructionSameReports | asm-lang/vs_code/organ-16-asm-support/server/lsp-server.py:111-183 | the same for the instruction part of a line |
| Validator.OperandMessages | asm-lang/vs_code/organ-16-asm-support/server/lsp-server.py:131-161 | the messages of the checks by format do not depend on where the operands stand |
| Validator.UsedNames | asm-lang/vs_code/organ-16-asm-support/server/lsp-server.py:164-183 | the label names recorded do not depend on where the operands stand |
| Validator.RegisterMessages | asm-lang/vs_code/organ-16-asm-support/server/lsp-server.py:132-139 | the messages of the register check do not depend on where the operands stand |
| Validator.LabelNames | asm-lang/vs_code/organ-16-asm-support/server/lsp-server.py:164-183 | the names recorded for a line are exactly its operands that are neither registers, valid or not, nor immediates, each recorded with that line |
| Validator.InvalidRegisters | asm-lang/vs_code/organ-16-asm-support/server/lsp-server.py:132-139 | the register check reports every operand that is an invalid register and nothing else, each at its first occurrence on the line |
| Validator.ValidRegisterSet | asm-lang/vs_code/organ-16-asm-support/server/lsp-server.py:59 | `VALID_REGISTERS` are exactly the assembler's register names R0-R7 |
| Validator.InvalidRegisterMeaning | asm-lang/vs_code/organ-16-asm-support/server/lsp-server.py:125-126 | a token is an invalid register exactly when it starts with `R` or `r` and, upper-cased, is not R0-R7 |
| Validator.AcceptedImmediatesAreNumbers | asm-lang/vs_code/organ-16-asm-support/server/lsp-server.py:64 | every immediate the checker accepts is read by the older assembler as a non-negative number, never as a label |
| Validator.LabelDefinition | asm-lang/vs_code/organ-16-asm-support/server/lsp-server.py:94-103 | a label that is no identifier is reported invalid, a second definition is reported duplicate and the first kept, and only a new identifier enters the table with its line |
| Validator.InstructionAppends | asm-lang/vs_code/organ-16-asm-support/server/lsp-server.py:111-183 | the instruction part of a line only appends reports, all errors, and label uses, and does not touch the label table |
| Validator.LineAppends | asm-lang/vs_code/organ-16-asm-support/server/lsp-server.py:89-183 | a line only appends reports, all errors, and uses; its label table is the one its label part leaves |
| Validator.UnknownInstruction | asm-lang/vs_code/organ-16-asm-support/server/lsp-server.py:114-116 | an unknown mnemonic gives exactly one report, at the mnemonic, and nothing else on the line is checked or recorded |
| Validator.OperandCountMismatch | asm-lang/vs_code/organ-16-asm-support/server/lsp-server.py:118-123 | a wrong operand count gives exactly one report naming the expected count, and nothing else on the line is checked or recorded |
| Validator.RegisterReports | asm-lang/vs_code/organ-16-asm-support/server/lsp-server.py:132-147 | an operand a register format checks is reported as an invalid register exactly when it is one |
| Validator.ImmediateOperand | asm-lang/vs_code/organ-16-asm-support/server/lsp-server.py:140-149 | the second operand of MOV is reported as an invalid immediate, and of LOAD and STORE as an invalid memory address, exactly when it is not a number of `IMMEDIATE_REGEX` |
| Validator.JumpTarget | asm-lang/vs_code/organ-16-asm-support/server/lsp-server.py:150-153 | a jump's target is reported exactly when it is neither a number nor in the label table so far |
| Validator.QuotedInjective | asm-lang/vs_code/organ-16-asm-support/server/lsp-server.py:135-153 | reports of one kind name their operand unambiguously |
| Validator.QuotedDistinct | asm-lang/vs_code/organ-16-asm-support/server/lsp-server.py:135-153 | reports of different kinds never share a message |
| Validator.DefinedLabels | asm-lang/vs_code/organ-16-asm-support/server/lsp-server.py:94-103 | after the scan the table holds exactly the labels some line defines, each with the first line that defines it |
| Validator.DefinedStep | asm-lang/vs_code/organ-16-asm-support/server/lsp-server.py:94-103 | one line enters a label exactly when it defines it and the table lacks it, and a label keeps its first line |
| Validator.ScanGrows | asm-lang/vs_code/organ-16-asm-support/server/lsp-server.py:89-183 | the scan only appends reports and label uses, line by line |
| Validator.ForwardJump | asm-lang/vs_code/organ-16-asm-support/server/lsp-server.py:150-153 | a jump to a label defined only on a later line is reported as an invalid jump address, and that label is then not reported as undefined |
| Validator.NotYetDefined | asm-lang/vs_code/organ-16-asm-support/server/lsp-server.py:94-103 | a label no line defines is not in the table |
| Validator.DefinedNeverUndefined | asm-lang/vs_code/organ-16-asm-support/server/lsp-server.py:185-188 | a label some line defines is never reported as undefined |
| Validator.UndefinedReported | asm-lang/vs_code/organ-16-asm-support/server/lsp-server.py:185-190 | every recorded use of a label missing from the table is reported after the scan, and nothing else is reported then |
| Validator.AllReportsAreErrors | asm-lang/vs_code/organ-16-asm-support/server/lsp-server.py:68-77 | every report the checker returns has error severity and this server as source |
| Validator.ScanErrors | asm-lang/vs_code/organ-16-asm-support/server/lsp-server.py:89-183 | every report of the scan is an error |
| Validator.ValidateOrgSource | asm-lang/vs_code/organ-16-asm-support/server/lsp-server.py:85-190 | the method returns the scan's reports in line order followed by one report per undefined label use |
| Validator.ScanLines | asm-lang/vs_code/organ-16-asm-support/server/lsp-server.py:89-183 | the line loop leaves the reports, table and uses of `Scan` |
| Validator.ReportUndefined | asm-lang/vs_code/organ-16-asm-support/server/lsp-server.py:185-188 | the final loop reports each use of an undefined label once, in any order |
| Validator.ReportsWithout | asm-lang/vs_code/organ-16-asm-support/server/lsp-server.py:186-188 | each use contributes its own report, which no other use shares |
| Validator.ValidateLine | asm-lang/vs_code/organ-16-asm-support/server/lsp-server.py:89-183 | one iteration performs `LineStep` |
| Validator.CheckLabel | asm-lang/vs_code/organ-16-asm-support/server/lsp-server.py:94-103 | the label part of an iteration performs `DefineLabel` |
| Validator.CheckInstruction | asm-lang/vs_code/organ-16-asm-support/server/lsp-server.py:111-183 | the instruction part of an iteration performs `InstructionStep` |
| Validator.CheckOperands | asm-lang/vs_code/organ-16-asm-support/server/lsp-server.py:131-161 | the checks by format append `OperandDiagnostics` |
| Validator.CollectLabelUses | asm-lang/vs_code/organ-16-asm-support/server/lsp-server.py:164-183 | the collection loop adds `LabelScan`'s uses |
| ImageEncoder.Rgb565Decodes | tools/image_encoder.py:4-8 | the red, green and blue fields the RAM reads from a pixel word are the top five, six and five bits of the channels packed |
| ImageEncoder.Rgb565Covers | tools/image_encoder.py:4-8 | every sixteen-bit word is the RGB565 packing of some colour |
| ImageEncoder.Rgb565SameWord | tools/image_encoder.py:4-8 | two colours pack to the same word exactly when they agree in the bits the format keeps |
| ImageEncoder.Rgb555Fields | tools/image_encoder.py:10-14 | RGB555 leaves bit 15 clear and keeps each channel's top five bits in its own field |
| ImageEncoder.Rgb555Covers | tools/image_encoder.py:10-14 | every word with bit 15 clear is the RGB555 packing of some colour |
| ImageEncoder.Top5Inverse | tools/image_encoder.py:5 | the five-bit field extraction undoes a shift left by three |
| ImageEncoder.Argb1555Opaque | tools/image_encoder.py:16-21 | ARGB1555 is RGB555 with the alpha bit 15 always set |
| ImageEncoder.FormatNamed | tools/image_encoder.py:43-52 | exactly the names `rgb565`, `rgb555`, `argb1555` and `gray16` select their formats |
| ImageEncoder.Hex4ReadsBack | tools/image_encoder.py:54 | `{pixel:04X}` is four uppercase hexadecimal digits that read back as the word |
| ImageEncoder.Rows | tools/image_encoder.py:57-60 | the output has one line per sixteen values, the last possibly shorter |
| ImageEncoder.JoinWords | tools/image_encoder.py:59 | four-character words joined by spaces stand at multiples of five with a space between |
| ImageEncoder.WrittenLines | tools/image_encoder.py:57-60 | each line is followed by a newline |
| ImageEncoder.RowLayout | tools/image_encoder.py:58-59 | every full line holds sixteen words at multiples of five |
| ImageEncoder.TextLayout | tools/image_encoder.py:57-60 | the written text holds word `p` at `5 * p`, followed by a newline after every sixteenth word and a space after the others |
| ImageEncoder.HexValues | tools/image_encoder.py:37-54 | one hexadecimal value per pixel |
| ImageEncoder.Converted | tools/image_encoder.py:28-60 | a picture that is not 128 x 128 is rejected; otherwise an unknown lower-cased format fails with its name, and a known one gives the text |
| ImageEncoder.Convert | tools/image_encoder.py:28-60 | the loops compute `Converted` |
| ImageEncoder.WriteLines | tools/image_encoder.py:57-60 | the writing loop produces the values sixteen to a line |
| ImageEncoder.SavedLayout | tools/image_encoder.py:28-60 | a saved text holds the 16384 pixels in row-major order, pixel `p` at `5 * p` as four uppercase hexadecimal digits reading back as its word in the chosen format, then a newline after every sixteenth pixel and a space otherwise |

## Left out

- **The Qt user interface** in `emulator/src/main.cpp` and `emulator/src/layouts/`: widgets, timers, file dialogs and styles. Two facts from it appear only as constants or preconditions:
  - the 128 x 128 screen size that `GetScreenDim()` returns is `Memory.SCREEN_WIDTH` and `Memory.SCREEN_HEIGHT`;
  - the image loader calls `RAM::Load` only with exactly 65536 parsed words. `Memory.Ram.Load` requires at least 65536 words, which is what `copy_n` reads. The file dialog and the skipping of bad hexadecimal tokens are not modelled.
- **Visualisation and debug callbacks** (`UpdateRegValue`, `UpdateClockLabel`, `UpdateDebugValues`, `ProcessFlipflopsAndUpdateDebug`, `ResetVisualRAM`, `UpdateVisualRAMCurrentAddress`). These are foreign calls with no effect on the machine, so they are not modelled.
  - `SetScreenPixel` is the exception: it is kept as the pixel a RAM write returns. The `Cpu` appends that pixel to a log of painted pixels.
- **Singletons, mutexes and the threads that drive `RunFrame`.** They are not modelled. Each component is an object owned by one `Cpu`, and ticks run one after another.
- **I/O ports.** The definitions of `GetIN` and `SetOUT` are not part of this model. The three ports are one array of three words: `IN` reads an entry and `OUT` writes one. `CPU::Init` calls `ResetIOPortsVisual`, and the panel's `reset()` sets every port value to 0 (`emulator/src/layouts/io_ports.cpp:117-121`). So `Cpus.Cpu.Init`, and `Cpus.Cpu.Reset` through it, set the three ports to 0.
- **`ImmediateToBin` of the linker (`tools/compiler.py:35-61`)** substitutes names by regular expression and then runs `eval`. The model looks the immediate up among the labels first, then among the constants, and otherwise passes it to an `evaluate` parameter that stands for `eval`. Only the final `& 0xFFFF` masking is modelled exactly.
- **Textual label replacement in the linker.** `ReplaceLabelsAndConstants` (`tools/compiler.py:196-207`) is modelled as written, and `Linker.CompileMultiple` uses it. The lookup translator (`Linker.HexLine`) is the corrected program of the Findings row; the placement lemmas of `Placement` are stated for either translator.
- **File and process I/O.** `ReadFileLines` is not modelled: segments arrive as the lines it would return. Also not modelled:
  - writing the output files;
  - the JSON linker script and `main()` of `tools/compiler.py` and `main.py`;
  - PIL image loading in `convert`;
  - the `print` messages.
- **The language-server handlers** (`lsp-server.py:194-242`) and the editor extension are not modelled.
- **`gray16`** (`tools/image_encoder.py:23-26`) computes in floating point. It is a `GrayConverter` parameter.
- **`count_comps.py`** is not part of this model: it parses component libraries and prints counts.
- **Character classes.** `\d`, `str.isdigit`, `upper()` and `lower()` are modelled on ASCII; other Unicode digits and letters are not.
- **Set order in `validate_org_source`.** The final loop visits `labels_used` in the unspecified order of a Python set. `Validator.ValidateOrgSource` and `Validator.ReportUndefined` therefore state the trailing reports as a multiset, not as a sequence.
- **The dead jump branch in `Validator.CheckOperands`.** The branch for a jump format expecting two operands (`lsp-server.py:154-158`) is modelled by `Validator.OperandDiagnostics`. `Validator.CheckOperands` omits it: its precondition `WellFormedEntry` allows a jump at most one operand, which every mnemonic in `VALID_OPCODES` meets.
- **Converting a picture.** `ImageEncoder.Convert` receives the decoded picture as a row-major sequence of pixels. It returns the file text instead of writing it.
- Cpus.Cpu.RunFrame: `GetFrequency() * 10` is computed in a 32-bit `int`. The model multiplies unbounded integers, so a frequency above 214748364, where the C++ product overflows, is not modelled.
- Assembler.ImmediateValue: a name inside a larger expression, such as `BASE+2`, is handed to `evaluate` together with the rest of the expression. The substitution that `ImmediateToBin` makes itself (`tools/compiler.py:40-44`: constants before labels, on word boundaries, ignoring case) is part of what `evaluate` stands for and is not modelled.
- Assembler.ImmediateWord: the source appends ` — {e}`, the text of the exception raised during evaluation, to its message. That text comes from `eval` and is not modelled, so the message stops after the immediate.
- Placement.CompilePlacement: where words land is stated for a segment that no later segment overlaps, and for lines before which every line took the words the first pass counted for it. Overlapping segments overwrite each other in list order. A line that takes fewer words than counted shifts everything after it; `Placement.CountedWithOneRegister` gives a sufficient condition for exact counts.
- Memory.Ram.Read: there is no error path: its address is a 16-bit word, so the out-of-range throw at `ram.cpp:9-13` cannot happen.
- Alu.GetAluData: the contract does not restate the MUL, AND, OR and XOR results, which are the C++ operators themselves. `Alu.Sum`, `Alu.Difference`, `Alu.Quotient` and `Alu.Remainder` state the arithmetic ones.
- Text.PyInt: the contract states only that `int` rejects blank text. What `int` accepts is stated by `Text.PyIntOfDigits`, `Text.PyIntOfNegative` and `Text.PyIntOfPrefixed`. Underscores between digits, which `int` also accepts, are not modelled.
- Validator.OperandDiagnostics: the contract states only that every report is an error. Which operands are reported is stated by `Validator.RegisterReports`, `Validator.ImmediateOperand` and `Validator.JumpTarget`.
- Legacy.ReplaceLabels: the contract states only when the line is left unchanged. What the rewrite produces is stated by `Legacy.RewrittenLabel` for an operand that occurs once, and for `JA A` by `Legacy.ReplaceReachesMnemonic`.
- Legacy.EmitWords: the contract states only the image size. Where words land is stated by `Legacy.EmitWordsKeeps`, `Legacy.EmitLinesKeeps`, `Legacy.FirstWordStored` and `Legacy.StackRegionNotReserved`.
- Legacy.EmitLines: the contract states only the image size. Where words land is stated by `Legacy.EmitWordsKeeps`, `Legacy.EmitLinesKeeps`, `Legacy.FirstWordStored` and `Legacy.StackRegionNotReserved`.
- Legacy.EmitAll: the contract states only the image size. Where words land is stated by `Legacy.EmitWordsKeeps`, `Legacy.EmitLinesKeeps`, `Legacy.FirstWordStored` and `Legacy.StackRegionNotReserved`.
- Legacy.Compile: the contract states only the image size. Where words land is stated by `Legacy.EmitWordsKeeps`, `Legacy.EmitLinesKeeps`, `Legacy.FirstWordStored` and `Legacy.StackRegionNotReserved`.
- Legacy.CompileAsWritten: the contract states only the image size. Where words land is stated by `Legacy.EmitWordsKeeps`, `Legacy.EmitLinesKeeps`, `Legacy.FirstWordStored` and `Legacy.StackRegionNotReserved`.

## Findings

| source | as written | input that shows it | evidently intended | confidence | as-written member | corrected member |
|---|---|---|---|---|---|---|
| main.py:94-98 | `ReplaceLabels` rewrites every occurrence of the label name in the line with `str.replace`, the mnemonic included, before `LineToBinary` reads the line | `JA A` with a label `A`: the line becomes `J0x… 0x…`, whose mnemonic is unknown, and compilation fails | only the operand names the label, and `ImmediateToBin` already resolves label names, so the line should encode as the jump to `A`'s address | not executed | Legacy.ReplaceReachesMnemonic | Legacy.JumpToLabelEncoded |
| tools/compiler.py:196-207 | `ReplaceLabelsAndConstants` rewrites every occurrence of a label or constant name in the line with `str.replace`, the mnemonic included | `JA A` with a label `A`: the line becomes `J0x… 0x…`, whose mnemonic is unknown, and linking fails | only the operand names the label; `ImmediateToBin` already looks label names up, so the line should encode as the jump to `A`'s address | not executed | LinkerFindings.ReplaceReachesMnemonic | LinkerFindings.JumpToLabelEncoded |
| tools/compiler.py:315-317 | `int(value, 16)` accepts a negative base and only bases from 0xF000 up are skipped; `memory[addr]` with a negative `addr` indexes from the end of the list | a segment `HLT` at base `-0x10`: its word is stored at 0xFFF0, inside the stack region | segments are placed below the stack region, which stays blank | not executed | LinkerFindings.NegativeBaseReachesStack | Linker.StackRegionStaysBlank |
