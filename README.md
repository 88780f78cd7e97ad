# SwiftNes CPU core in Dafny

A model of the MOS 6502 CPU core of SwiftNes, a NES emulator written in
Swift, together with proofs about it. The model covers:

- the register file and its packed status byte;
- the CPU's bus wrappers, which charge one cycle per byte;
- the stack helpers on page 0x0100;
- the addressing-mode resolvers with the index "bonus" cycle;
- the 256-entry opcode table and its reverse lookup `opcode(_:_:)`;
- the instruction handlers and the `call` dispatcher;
- `load` and the `execute(cycles:)` loop;
- the RAM chip and the console's bus routing (0x0000–0x01FF to RAM; other reads answer zero and other writes are dropped).

The project has two layers.

**Functional layer.** A value `State` holds the registers, a snapshot of the RAM bytes and the cycle counter. Every operation is a function on it. The modules follow the source files:

| module | file | source |
|---|---|---|
| `Global` | `global.dfy` | `Global.swift` |
| `Registers` | `registers.dfy` | `Cpu+Registers.swift` |
| `MemoryDevice` | `memory.dfy` | `Memory.swift` |
| `NesBus` | `bus.dfy` | the delegate in `Nes.swift` |
| `Machine` | `machine.dfy` | the bus, stack and load parts of `Cpu.swift` |
| `Addressing` | `addressing.dfy` | `Cpu+AddressingModes.swift` |
| `Instructions` | `instructions.dfy` | `Cpu+Instructions.swift` |
| `Opcodes` | `opcodes.dfy` | `Cpu+Opcodes.swift` |
| `Execution` | `execution.dfy` | `execute(cycles:)` |

**Object layer.** The mutable objects of the source are classes:

- `CpuCore.Cpu` in `cpu.dfy`, with the fields `registers` and `totalCycles` and the memory its bus reaches;
- `MemoryDevice.Memory`;
- `Console.Nes` in `nes.dfy`.

Each `Cpu` method updates the fields step by step as the Swift method does. Its contract says the object's new `Snapshot()` is exactly what the functional layer computes from the snapshot before the call. So every property proved about the functions holds for the object.

Swift traps on `UInt8`/`UInt16` overflow: `pc += 1`, `sp -= 2`, `base + Address(x)`, `address + Address(i)`. Each of these is a precondition. The same goes for:

- the force-unwrap in `opcode(_:_:)`;
- the `fatalError` in `load`;
- the memory's out-of-range address.

`CanCall` and `Safe` gather the traps one handler call, and a whole run, can reach.

Behaviour of the code as written, which the model follows:

- `bit` sets Z when the accumulator and the operand share a set bit. The hardware rule is the opposite.
- The index "bonus" cycle is added when `(base + index) - base >= 0xFF`, which means exactly when the index is 0xFF. It is not about crossing a page.
- `load` computes `program[1] << 8` in 8 bits. The start address is therefore `program[0]`. The bytes go through the bus without counting cycles.
- A pushed byte sits at `0x0100 | sp`, and a pop reads `0x0100 | sp` after the decrement. `pla` and `plp` right after a push therefore read the slot below the pushed byte.
- A handler reports a documented cycle count, which `execute` drops. The counter grows only by the bus cycles the fetch and the handler spend.
- The memory's guard is `address <= size`, so address `size` passes it and indexes past the end.
- The indexed-indirect pointer's high byte is read from `pointer + 1` with no wrap in page zero.
- The status byte `p` is declared `private` in `Cpu+Registers.swift`, yet `php` and `plp` in `Cpu+Instructions.swift` read and assign `registers.p`, which Swift's file-scoped `private` does not allow. The model lets `php` read `p` and `plp` assign it directly.

## Model

| member | source | states |
|---|---|---|
| Global.ByteValue | Sources/SwiftNES/Components/Global.swift:13-15 | a flag as a byte is 1 when set and 0 when clear |
| Global.SplitCombine | Sources/SwiftNes/HW/Cpu.swift:68-72 | composing a word from a low and a high byte and splitting it again gives the two bytes back |
| Global.CombineSplit | Sources/SwiftNes/HW/Cpu.swift:79-83 | splitting a word into its low and high byte and composing them again gives the word back |
| Registers.Init | Sources/SwiftNes/HW/Cpu+Registers.swift:39-46 | power-on registers: a, x, y and pc are zero, sp is 0xFF, every flag is clear and bit 5 of p is set |
| Registers.Registers.Reset | Sources/SwiftNes/HW/Cpu+Registers.swift:49-56 | reset gives exactly the power-on registers, whatever they were |
| Registers.ResetIdempotent | Sources/SwiftNes/HW/Cpu+Registers.swift:49-56 | resetting twice is resetting once, and both equal the power-on registers |
| Registers.Bit | Sources/SwiftNes/HW/Cpu+Registers.swift:60-121 | each flag has its own bit below 8, and no flag uses bit 5 |
| Registers.MaskIsBit | Sources/SwiftNes/HW/Cpu+Registers.swift:60-121 | the getter masks are the single bits C=0, Z=1, I=2, D=3, B=4, V=6, N=7 |
| Registers.FlagIsMaskedBit | Sources/SwiftNes/HW/Cpu+Registers.swift:60-121 | the mask-shift-compare getter is set exactly when its bit of p is set |
| Registers.Registers.Flag | Sources/SwiftNes/HW/Cpu+Registers.swift:60-121 | the seven getters; `MaskIsBit` and `FlagIsMaskedBit` state which bit of p each reads, `WithFlag` and `SetterKeepsOtherFlags` how the setters change it |
| Registers.Registers.WithFlag | Sources/SwiftNes/HW/Cpu+Registers.swift:64-120 | a setter followed by its getter gives the value set, and the setter changes nothing but p |
| Registers.SetterKeepsOtherFlags | Sources/SwiftNes/HW/Cpu+Registers.swift:64-120 | a setter leaves every other flag as it was |
| Registers.SetterKeepsBit5 | Sources/SwiftNes/HW/Cpu+Registers.swift:64-120 | no setter changes bit 5 of p |
| Registers.Registers.Set | Sources/SwiftNes/HW/Cpu+Instructions.swift:656-690 | assigning a register changes that register only, and neither p nor pc |
| MemoryDevice.Memory.constructor | Sources/SwiftNes/HW/Memory.swift:27-33 | a positive size gives that many zero bytes |
| MemoryDevice.Memory.Reset | Sources/SwiftNes/HW/Memory.swift:35-37 | every byte is zero again and the size is unchanged |
| MemoryDevice.Memory.ReadByte | Sources/SwiftNes/HW/Memory.swift:43-48 | below the size the stored byte, above it zero; address `size` is excluded by the caller |
| MemoryDevice.Memory.WriteByte | Sources/SwiftNes/HW/Memory.swift:50-55 | below the size only that byte changes, above it nothing changes; address `size` is excluded by the caller |
| NesBus.Read | Sources/SwiftNes/Components/Nes.swift:31-38 | a read below 0x0200 answers the RAM byte, any other read answers zero, and the RAM's bad address is never reached |
| NesBus.Write | Sources/SwiftNes/Components/Nes.swift:40-47 | a write below 0x0200 replaces that RAM byte only; any other write leaves the RAM alone |
| NesBus.PeekAfterPoke | Sources/SwiftNes/Components/Nes.swift:31-47 | reading back a routed write gives the byte written, and every other address keeps its byte |
| Machine.ReadByte | Sources/SwiftNes/HW/Cpu.swift:59-63 | the bus byte at the address, for one cycle, and nothing else changes |
| Machine.ReadWord | Sources/SwiftNes/HW/Cpu.swift:68-72 | the low byte from the address and the high byte from the next one, for two cycles |
| Machine.WriteByte | Sources/SwiftNes/HW/Cpu.swift:74-77 | one bus write, for one cycle; the registers are unchanged |
| Machine.WriteWord | Sources/SwiftNes/HW/Cpu.swift:79-83 | the low byte at the address and the high byte at the next one, for two cycles |
| Machine.ReadWordAfterWriteWord | Sources/SwiftNes/HW/Cpu.swift:68-83 | reading back a word written to routed addresses gives that word |
| Machine.Fetch | Sources/SwiftNes/HW/Cpu.swift:88-92 | the byte at pc, with pc one further, for one cycle |
| Machine.FetchWord | Sources/SwiftNes/HW/Cpu.swift:94-98 | the word at pc, with pc two further, for two cycles |
| Machine.ZeroAndSign | Sources/SwiftNes/HW/Cpu.swift:102-105 | Z is set exactly when the value is zero and N exactly when its bit 7 is set; every other flag, bit 5 of p and every register are unchanged |
| Machine.SpAddressIsOr | Sources/SwiftNes/HW/Cpu.swift:109-111 | the stack address `0x0100 \| sp` is 0x0100 plus sp |
| Machine.SpAddress | Sources/SwiftNes/HW/Cpu.swift:109-111 | `spAddress`; `SpAddressIsOr` states that the or is 0x0100 plus sp, and `PopWordAfterPushWord` and `PopByteBelowPush` what the stack slots hold |
| Machine.PushWord | Sources/SwiftNes/HW/Cpu.swift:113-116 | the word is written at the stack address minus one and sp is two lower |
| Machine.PushByte | Sources/SwiftNes/HW/Cpu.swift:118-121 | the byte is written at the stack address and sp is one lower |
| Machine.PopWord | Sources/SwiftNes/HW/Cpu.swift:123-127 | the word at the stack address plus one, with sp two higher and two cycles spent |
| Machine.PopByte | Sources/SwiftNes/HW/Cpu.swift:129-133 | the byte at the stack address, with sp one higher and one cycle spent |
| Machine.PopWordAfterPushWord | Sources/SwiftNes/HW/Cpu.swift:113-127 | a word push followed by a word pop answers the word and restores sp |
| Machine.PopByteAfterPushByte | Sources/SwiftNes/HW/Cpu.swift:118-133 | after a byte push and a byte pop, sp is restored and the pushed byte sits at the old stack address, but the pop answers the byte one below it |
| Machine.PopByteBelowPush | Sources/SwiftNes/HW/Cpu.swift:118-133 | a pop right after a push answers the byte below the pushed one |
| Machine.LoadAddress | Sources/SwiftNes/HW/Cpu.swift:34 | the start address equals the first program byte, because the shifted second byte is lost |
| Machine.WrittenAt | Sources/SwiftNes/HW/Cpu.swift:36-38 | after the loop each routed target address holds its own byte |
| Machine.WrittenElsewhere | Sources/SwiftNes/HW/Cpu.swift:36-38 | the loop changes no address outside the written range |
| Machine.LoadPlacesProgram | Sources/SwiftNes/HW/Cpu.swift:31-40 | byte k+2 of the program is at the start address plus k, when the bus routes that address |
| Machine.LoadKeepsRest | Sources/SwiftNes/HW/Cpu.swift:31-40 | every address outside the loaded range keeps its byte |
| Addressing.ZeroPageAddress | Sources/SwiftNes/HW/Cpu+AddressingModes.swift:31-33 | the fetched byte as an address below 0x100, with one operand byte fetched and no bonus |
| Addressing.InPageZero | Sources/SwiftNes/HW/Cpu+AddressingModes.swift:38 | the byte sum with wrap-around, which stays below 0x100 |
| Addressing.ZeroPageXAddress | Sources/SwiftNes/HW/Cpu+AddressingModes.swift:35-40 | (fetched byte + x) mod 256, with one operand byte fetched and no bonus |
| Addressing.ZeroPageXWraps | Sources/SwiftNes/HW/Cpu+AddressingModes.swift:35-40 | 0x80 with x at 0xFF resolves to 0x7F |
| Addressing.ZeroPageYAddress | Sources/SwiftNes/HW/Cpu+AddressingModes.swift:42-47 | (fetched byte + y) mod 256, with one operand byte fetched and no bonus |
| Addressing.AbsoluteAddress | Sources/SwiftNes/HW/Cpu+AddressingModes.swift:49-51 | the little-endian operand word, with pc two further and no bonus |
| Addressing.BonusRule | Sources/SwiftNes/HW/Cpu+AddressingModes.swift:56-59 | the `>= 0xFF` test on the difference adds a cycle exactly when the index is 0xFF |
| Addressing.BonusIsNotPageCrossing | Sources/SwiftNes/HW/Cpu+AddressingModes.swift:56-59 | 0x00FF+1 crosses a page and gets no bonus; 0x0000+0xFF stays in the page and gets one |
| Addressing.AbsoluteIndexed | Sources/SwiftNes/HW/Cpu+AddressingModes.swift:53-76 | operand word plus index with no 16-bit overflow; bonus 1 exactly for index 0xFF |
| Addressing.AbsoluteXAddress | Sources/SwiftNes/HW/Cpu+AddressingModes.swift:53-61 | operand word plus x, bonus 1 exactly when x is 0xFF, two operand bytes fetched |
| Addressing.AbsoluteYAddress | Sources/SwiftNes/HW/Cpu+AddressingModes.swift:68-76 | operand word plus y, bonus 1 exactly when y is 0xFF, two operand bytes fetched |
| Addressing.IndexedIndirectAddress | Sources/SwiftNes/HW/Cpu+AddressingModes.swift:83-89 | the word at (fetched byte + x) mod 256, with no bonus |
| Addressing.IndexedIndirectPointerFF | Sources/SwiftNes/HW/Cpu+AddressingModes.swift:83-89 | a pointer of 0xFF takes its high byte from 0x0100, not from 0x0000 |
| Addressing.IndirectIndexedAddress | Sources/SwiftNes/HW/Cpu+AddressingModes.swift:91-100 | the word at the fetched byte plus y, bonus 1 exactly when y is 0xFF |
| Addressing.Resolve | Sources/SwiftNes/HW/Cpu+AddressingModes.swift:31-100 | every resolver advances pc past its operand bytes and spends one cycle per byte it touches: 1, 1, 1, 2, 2, 2, 3, 3 |
| Addressing.ResolveBonus | Sources/SwiftNes/HW/Cpu+AddressingModes.swift:53-100 | a resolver's bonus is the index rule of its mode, and the zero-page modes stay in page zero |
| Instructions.ReadOperand | Sources/SwiftNes/HW/Cpu+Instructions.swift:256-289 | the byte at the operand's address, pc past the operand, one cycle per byte touched, and the resolver's bonus |
| Instructions.Load | Sources/SwiftNes/HW/Cpu+Instructions.swift:256-341 | the target gets the operand and Z/N come from it; every other register and flag is unchanged; the reported count is the mode's count plus the bonus |
| Instructions.Store | Sources/SwiftNes/HW/Cpu+Instructions.swift:343-403 | the register goes to the resolved address; the registers other than pc and all flags are unchanged; the count has no bonus |
| Instructions.Logic | Sources/SwiftNes/HW/Cpu+Instructions.swift:535-635 | A becomes A op operand; only Z and N change, set from the new A |
| Instructions.AddMemory | Sources/SwiftNes/HW/Cpu+Instructions.swift:405-446 | `adc` applies the 16-bit add to the operand read for the mode and reports the mode's count plus the bonus |
| Instructions.AdcMatchesReference | Sources/SwiftNes/HW/Cpu+Instructions.swift:437-444 | the new A is (A + M + C) mod 256, and carry is set exactly when A + M + C exceeds 255 |
| Instructions.AdcZeroFlag | Sources/SwiftNes/HW/Cpu+Instructions.swift:437-444 | Z is set exactly when the new A is zero |
| Instructions.AdcSignFlag | Sources/SwiftNes/HW/Cpu+Instructions.swift:437-444 | N is bit 7 of the new A |
| Instructions.AdcOverflowFlag | Sources/SwiftNes/HW/Cpu+Instructions.swift:437-444 | V is set exactly when A and M have the same sign and the new A's sign differs |
| Instructions.AdcKeeps | Sources/SwiftNes/HW/Cpu+Instructions.swift:437-444 | I, D, B and bit 5 of p are unchanged, and only p and A change |
| Instructions.AdcKeepsBit5 | Sources/SwiftNes/HW/Cpu+Instructions.swift:437-444 | the `adc` update keeps bit 5 of p |
| Instructions.SettersKeepBit5 | Sources/SwiftNes/HW/Cpu+Instructions.swift:439-444 | the four `adc` flag setters in order keep bit 5 of p, whatever values they set |
| Instructions.AddWithCarry | Sources/SwiftNes/HW/Cpu+Instructions.swift:437-444 | the `adc` register update; `AdcMatchesReference`, `AdcZeroFlag`, `AdcSignFlag`, `AdcOverflowFlag`, `AdcKeeps` and `AdcKeepsBit5` state its result |
| Instructions.AdcSetsLow | Sources/SwiftNes/HW/Cpu+Instructions.swift:444 | the new A is the low byte of the 16-bit sum |
| Instructions.AdcSetsCarry | Sources/SwiftNes/HW/Cpu+Instructions.swift:439 | C is the high-byte test of the sum |
| Instructions.AdcSetsZero | Sources/SwiftNes/HW/Cpu+Instructions.swift:440 | Z is the low-byte test of the sum |
| Instructions.AdcSetsSign | Sources/SwiftNes/HW/Cpu+Instructions.swift:441 | N is bit 7 of the sum |
| Instructions.AdcSetsOverflow | Sources/SwiftNes/HW/Cpu+Instructions.swift:442 | V is the xor test on the sum against the old A and the operand |
| Instructions.BitTest | Sources/SwiftNes/HW/Cpu+Instructions.swift:637-654 | Z is set when A and the operand share a set bit, V is operand bit 6 and N operand bit 7; C, I, D, B and bit 5 of p are unchanged; A, x, y, sp and the RAM are unchanged; no bonus |
| Instructions.BitFlags | Sources/SwiftNes/HW/Cpu+Instructions.swift:650-652 | the three setters of `bit` leave Z, V and N at the values given and keep every other flag, bit 5 of p and every register |
| Instructions.BitZeroIsInverted | Sources/SwiftNes/HW/Cpu+Instructions.swift:637-654 | Z is set exactly when A and the operand share a set bit |
| Instructions.Transfer | Sources/SwiftNes/HW/Cpu+Instructions.swift:656-690 | the target gets the source and every other register is unchanged; Z/N come from the value unless the target is sp (`txs`, which keeps p); two cycles |
| Instructions.Count | Sources/SwiftNes/HW/Cpu+Instructions.swift:692-726 | the register is one more (`inx`, `iny`) or one less (`dex`, `dey`) in 8-bit arithmetic and Z/N come from the new value; nothing else changes; two cycles |
| Instructions.CountWraps | Sources/SwiftNes/HW/Cpu+Instructions.swift:692-726 | the new value is the old one plus or minus one mod 256, so 0 − 1 = 0xFF |
| Instructions.CountUpThenDown | Sources/SwiftNes/HW/Cpu+Instructions.swift:692-717 | counting up and then down gives the register back |
| Instructions.Push | Sources/SwiftNes/HW/Cpu+Instructions.swift:501-515 | `pha`/`php` push the byte and report three cycles |
| Instructions.PullAccumulator | Sources/SwiftNes/HW/Cpu+Instructions.swift:517-524 | A gets the byte at the stack address before the increment and Z/N come from it; sp is one higher |
| Instructions.PullStatus | Sources/SwiftNes/HW/Cpu+Instructions.swift:526-533 | p is replaced whole by the byte at the stack address, bit 5 included; sp is one higher |
| Instructions.Jump | Sources/SwiftNes/HW/Cpu+Instructions.swift:452-463 | absolute sets pc to the operand word (3 cycles); indirect sets it to the word at the operand word (5); nothing else but the counter changes |
| Instructions.JumpToSubroutine | Sources/SwiftNes/HW/Cpu+Instructions.swift:465-473 | `jsr` spends four bus cycles and reports six |
| Instructions.JumpToSubroutineRegisters | Sources/SwiftNes/HW/Cpu+Instructions.swift:465-473 | after `jsr`, pc is the operand word and sp is two lower |
| Instructions.JumpToSubroutinePushes | Sources/SwiftNes/HW/Cpu+Instructions.swift:465-473 | `jsr` pushes the address of its operand's last byte (pc after the fetch, minus one) |
| Instructions.ReturnFromSubroutine | Sources/SwiftNes/HW/Cpu+Instructions.swift:475-482 | pc becomes the popped word plus one and sp is two higher; six cycles |
| Instructions.ReturnsAfterJumpToSubroutine | Sources/SwiftNes/HW/Cpu+Instructions.swift:465-482 | `jsr` then `rts` restores sp and every other register, and resumes at the byte after the `jsr` operand |
| Instructions.Call | Sources/SwiftNes/HW/Cpu+Instructions.swift:177-237 | a handler outside its listed modes reports zero and changes nothing; no handler moves the counter back; no handler but `plp` changes bit 5 of p |
| Instructions.StubsDoNothing | Sources/SwiftNes/HW/Cpu+Instructions.swift:201-254 | the stubs and the printing handlers report zero and change nothing, in every mode |
| Instructions.StubsDoNotAct | Sources/SwiftNes/HW/Cpu+Instructions.swift:201-254 | no stub or printing handler lists any mode |
| Instructions.Acts | Sources/SwiftNes/HW/Cpu+Instructions.swift:256-726 | the modes each handler's guard lets through; `StubsDoNotAct` shows no stub lists any, `Opcodes.EntryHandled` that every non-stub table entry's mode is listed |
| Instructions.ReadHandler | Sources/SwiftNes/HW/Cpu+Instructions.swift:180-200 | the load, logic, `bit` and `adc` cases never move the counter back and keep bit 5 of p |
| Instructions.RegisterHandler | Sources/SwiftNes/HW/Cpu+Instructions.swift:186-210 | the transfer and counting cases never move the counter back and keep bit 5 of p |
| Instructions.StackHandler | Sources/SwiftNes/HW/Cpu+Instructions.swift:192-195 | the stack cases never move the counter back, and all but `plp` keep bit 5 of p |
| Instructions.JumpHandler | Sources/SwiftNes/HW/Cpu+Instructions.swift:215-217 | the jump cases never move the counter back and keep bit 5 of p |
| Instructions.LoadKeepsBit5 | Sources/SwiftNes/HW/Cpu+Instructions.swift:256-341 | a load keeps bit 5 of p |
| Instructions.LogicKeepsBit5 | Sources/SwiftNes/HW/Cpu+Instructions.swift:535-635 | `and`, `ora` and `eor` keep bit 5 of p |
| Opcodes.Entry | Sources/SwiftNes/HW/Cpu+Opcodes.swift:31-303 | the entry of a byte holds that byte as its value |
| Opcodes.Table | Sources/SwiftNes/HW/Cpu+Opcodes.swift:30-305 | the table has 256 entries |
| Opcodes.TableIndex | Sources/SwiftNes/HW/Cpu+Opcodes.swift:31-303 | the entry at position k is the entry of byte k and has value k |
| Opcodes.FindValue | Sources/SwiftNes/HW/Cpu.swift:45 | the search answers the first entry holding the byte, or none when no entry does |
| Opcodes.LookupFindsEntry | Sources/SwiftNes/HW/Cpu.swift:45-48 | every byte has an entry, so the invalid-opcode guard never fires |
| Opcodes.Lookup | Sources/SwiftNes/HW/Cpu.swift:45 | `opcodes.first(where:)`: an entry found carries the byte searched for; `LookupFindsEntry` shows it is the entry of that byte and is always found |
| Opcodes.EntryEncoded | Sources/SwiftNes/HW/Cpu+Opcodes.swift:31-303 | every entry agrees with the independent per-instruction encoding, and every `invalid` entry is implicit |
| Opcodes.EntryHandled | Sources/SwiftNes/HW/Cpu+Opcodes.swift:31-303 | every entry's mode has a working handler unless its instruction is a stub or only prints |
| Opcodes.FindPair | Sources/SwiftNes/HW/Cpu+Opcodes.swift:26-28 | the reverse search answers the first entry listing the pair, or none |
| Opcodes.PairIsUnique | Sources/SwiftNes/HW/Cpu+Opcodes.swift:31-303 | no two entries other than `invalid` ones list the same pair |
| Opcodes.OpcodeByteIsEncode | Sources/SwiftNes/HW/Cpu+Opcodes.swift:26-28 | `opcode(i, m)` equals the independent encoding of a listed pair |
| Opcodes.OpcodeByte | Sources/SwiftNes/HW/Cpu+Opcodes.swift:26-28 | `opcode(_:_:)`; `OpcodeByteIsEncode`, `LookupOfOpcodeByte`, `FirstInvalidByte` and `NopByte` state its value |
| Opcodes.FirstInvalidByte | Sources/SwiftNes/HW/Cpu+Opcodes.swift:26-28 | `opcode(.invalid, .implicit)` is 0x02 |
| Opcodes.NopByte | Sources/SwiftNes/HW/Cpu+Opcodes.swift:26-28 | `opcode(.nop, .implicit)` is 0xEA |
| Opcodes.OpcodeByteOfEntry | Sources/SwiftNes/HW/Cpu+Opcodes.swift:26-28 | encoding the pair of any entry other than `invalid` gives its byte back |
| Opcodes.LookupOfOpcodeByte | Sources/SwiftNes/HW/Cpu+Opcodes.swift:26-28 | decoding `opcode(i, m)` gives an entry with the pair (i, m) |
| Opcodes.ListedIsHandled | Sources/SwiftNes/HW/Cpu+Opcodes.swift:31-303 | every listed pair other than a stub or a printing instruction has a working handler for its mode |
| Execution.Step | Sources/SwiftNes/HW/Cpu.swift:44-49 | one pass of the loop body always moves the counter up |
| Execution.StepRunsEntry | Sources/SwiftNes/HW/Cpu.swift:44-49 | one pass calls the handler of the table entry of the byte at pc |
| Execution.StepRuns | Sources/SwiftNes/HW/Cpu.swift:45-48 | a pass of the loop body never stops at the invalid-opcode guard |
| Execution.StepKeepsBit5 | Sources/SwiftNes/HW/Cpu.swift:44-49 | a pass keeps bit 5 of p unless the instruction at pc is `plp` |
| Execution.RunReachesBudget | Sources/SwiftNes/HW/Cpu.swift:43 | the loop ends with the counter at or past the budget |
| Execution.RunAtBudget | Sources/SwiftNes/HW/Cpu.swift:43 | a budget already reached leaves the state alone |
| Execution.Run | Sources/SwiftNes/HW/Cpu.swift:42-52 | the state `execute(cycles:)` leaves; the counter never moves back, and `RunReachesBudget`, `RunAtBudget` and `RunResumes` state where the loop ends |
| Execution.RunResumes | Sources/SwiftNes/HW/Cpu.swift:42-52 | running to a smaller budget and then to a larger one equals running to the larger one |
| CpuCore.Cpu.constructor | Sources/SwiftNes/HW/Cpu.swift:19-23 | power-on registers, a zero counter, and the console's memory on the bus |
| CpuCore.Cpu.Reset | Sources/SwiftNes/HW/Cpu.swift:26-29 | the registers are reset and the counter is zero; the RAM is untouched |
| CpuCore.Cpu.ReadByte | Sources/SwiftNes/HW/Cpu.swift:59-63 | the object does what `Machine.ReadByte` computes |
| CpuCore.Cpu.ReadWord | Sources/SwiftNes/HW/Cpu.swift:68-72 | the object does what `Machine.ReadWord` computes |
| CpuCore.Cpu.WriteByte | Sources/SwiftNes/HW/Cpu.swift:74-77 | the object does what `Machine.WriteByte` computes |
| CpuCore.Cpu.WriteWord | Sources/SwiftNes/HW/Cpu.swift:79-83 | the object does what `Machine.WriteWord` computes |
| CpuCore.Cpu.Fetch | Sources/SwiftNes/HW/Cpu.swift:88-92 | the object does what `Machine.Fetch` computes |
| CpuCore.Cpu.FetchWord | Sources/SwiftNes/HW/Cpu.swift:94-98 | the object does what `Machine.FetchWord` computes |
| CpuCore.Cpu.UpdateZeroAndSignFlags | Sources/SwiftNes/HW/Cpu.swift:102-105 | the two setters in order give `ZeroAndSign`; the counter is unchanged |
| CpuCore.Cpu.PushWordToStack | Sources/SwiftNes/HW/Cpu.swift:113-116 | the object does what `Machine.PushWord` computes |
| CpuCore.Cpu.PushByteToStack | Sources/SwiftNes/HW/Cpu.swift:118-121 | the object does what `Machine.PushByte` computes |
| CpuCore.Cpu.PopWordFromStack | Sources/SwiftNes/HW/Cpu.swift:123-127 | the object does what `Machine.PopWord` computes |
| CpuCore.Cpu.PopByteFromStack | Sources/SwiftNes/HW/Cpu.swift:129-133 | the object does what `Machine.PopByte` computes |
| CpuCore.Cpu.FetchZeroPageAddress | Sources/SwiftNes/HW/Cpu+AddressingModes.swift:31-33 | the object does what `Addressing.ZeroPageAddress` computes |
| CpuCore.Cpu.FetchZeroPageXAddress | Sources/SwiftNes/HW/Cpu+AddressingModes.swift:35-40 | the object does what `Addressing.ZeroPageXAddress` computes |
| CpuCore.Cpu.FetchZeroPageYAddress | Sources/SwiftNes/HW/Cpu+AddressingModes.swift:42-47 | the object does what `Addressing.ZeroPageYAddress` computes |
| CpuCore.Cpu.FetchAbsoluteAddress | Sources/SwiftNes/HW/Cpu+AddressingModes.swift:49-51 | the object does what `Addressing.AbsoluteAddress` computes |
| CpuCore.Cpu.FetchAbsoluteXAddress | Sources/SwiftNes/HW/Cpu+AddressingModes.swift:53-66 | the `inout` counter grows by the bonus of `Addressing.AbsoluteXAddress`; the overload without a counter is the call with a discarded counter |
| CpuCore.Cpu.FetchAbsoluteYAddress | Sources/SwiftNes/HW/Cpu+AddressingModes.swift:68-81 | the `inout` counter grows by the bonus of `Addressing.AbsoluteYAddress`; the overload without a counter is the call with a discarded counter |
| CpuCore.Cpu.FetchIndexedIndirectAddress | Sources/SwiftNes/HW/Cpu+AddressingModes.swift:83-89 | the object does what `Addressing.IndexedIndirectAddress` computes |
| CpuCore.Cpu.FetchIndirectIndexedAddress | Sources/SwiftNes/HW/Cpu+AddressingModes.swift:91-105 | the `inout` counter grows by the bonus of `Addressing.IndirectIndexedAddress` |
| CpuCore.Cpu.FetchAddress | Sources/SwiftNes/HW/Cpu+Instructions.swift:343-371 | the resolver a handler picks for its mode does what `Addressing.Resolve` computes |
| CpuCore.Cpu.ReadOperand | Sources/SwiftNes/HW/Cpu+Instructions.swift:256-289 | the object does what `Instructions.ReadOperand` computes, with the bonus added to the count |
| CpuCore.Cpu.LoadRegister | Sources/SwiftNes/HW/Cpu+Instructions.swift:256-341 | the object and the returned count are those of `Instructions.Load` |
| CpuCore.Cpu.StoreRegister | Sources/SwiftNes/HW/Cpu+Instructions.swift:343-403 | the object and the returned count are those of `Instructions.Store` |
| CpuCore.Cpu.LogicOperation | Sources/SwiftNes/HW/Cpu+Instructions.swift:535-635 | the object and the returned count are those of `Instructions.Logic` |
| CpuCore.Cpu.AddToAccumulator | Sources/SwiftNes/HW/Cpu+Instructions.swift:437-444 | the setter sequence of `adc` gives `Instructions.AddWithCarry` |
| CpuCore.Cpu.AddWithCarryOperation | Sources/SwiftNes/HW/Cpu+Instructions.swift:405-446 | the object and the returned count are those of `Instructions.AddMemory` |
| CpuCore.Cpu.BitOperation | Sources/SwiftNes/HW/Cpu+Instructions.swift:637-654 | the object and the returned count are those of `Instructions.BitTest` |
| CpuCore.Cpu.TransferRegister | Sources/SwiftNes/HW/Cpu+Instructions.swift:656-690 | the object and the returned count are those of `Instructions.Transfer` |
| CpuCore.Cpu.CountRegister | Sources/SwiftNes/HW/Cpu+Instructions.swift:692-726 | the object and the returned count are those of `Instructions.Count` |
| CpuCore.Cpu.PushRegister | Sources/SwiftNes/HW/Cpu+Instructions.swift:501-515 | the object and the returned count are those of `Instructions.Push` |
| CpuCore.Cpu.PullAccumulatorOperation | Sources/SwiftNes/HW/Cpu+Instructions.swift:517-524 | the object and the returned count are those of `Instructions.PullAccumulator` |
| CpuCore.Cpu.PullStatusOperation | Sources/SwiftNes/HW/Cpu+Instructions.swift:526-533 | the object and the returned count are those of `Instructions.PullStatus` |
| CpuCore.Cpu.JumpOperation | Sources/SwiftNes/HW/Cpu+Instructions.swift:452-463 | the object and the returned count are those of `Instructions.Jump` |
| CpuCore.Cpu.JumpToSubroutineOperation | Sources/SwiftNes/HW/Cpu+Instructions.swift:465-473 | the object and the returned count are those of `Instructions.JumpToSubroutine` |
| CpuCore.Cpu.ReturnFromSubroutineOperation | Sources/SwiftNes/HW/Cpu+Instructions.swift:475-482 | the object and the returned count are those of `Instructions.ReturnFromSubroutine` |
| CpuCore.Cpu.CallRead | Sources/SwiftNes/HW/Cpu+Instructions.swift:180-200 | the load, logic, `bit` and `adc` cases of the switch do what `Instructions.ReadHandler` computes |
| CpuCore.Cpu.CallRegister | Sources/SwiftNes/HW/Cpu+Instructions.swift:186-210 | the transfer and counting cases do what `Instructions.RegisterHandler` computes |
| CpuCore.Cpu.CallStack | Sources/SwiftNes/HW/Cpu+Instructions.swift:192-195 | the stack cases do what `Instructions.StackHandler` computes |
| CpuCore.Cpu.CallJump | Sources/SwiftNes/HW/Cpu+Instructions.swift:215-217 | the jump cases do what `Instructions.JumpHandler` computes |
| CpuCore.Cpu.Call | Sources/SwiftNes/HW/Cpu+Instructions.swift:177-237 | the object and the returned count are those of `Instructions.Call` |
| CpuCore.Cpu.Load | Sources/SwiftNes/HW/Cpu.swift:31-40 | answers the first program byte as the start address, and the RAM becomes the loaded RAM of `Machine.LoadedRam`; registers and counter are untouched |
| CpuCore.Cpu.Execute | Sources/SwiftNes/HW/Cpu.swift:42-52 | the loop leaves the object in the state `Execution.Run` computes for the budget |
| Console.Nes.constructor | Sources/SwiftNes/Components/Nes.swift:16-22 | 2 KiB of zeroed RAM, and a CPU at power-on whose bus reaches that RAM |
| Console.Nes.Start | Sources/SwiftNes/Components/Nes.swift:24-26 | starting the console is the CPU's `execute(cycles:)` to the budget |

## Left out

- `print` tracing in `execute` and in the `brk`, `nop` and `invalid` handlers: output only. These handlers are modelled as doing nothing and reporting zero.
- `debugDescription` and the `hex` helpers: string formatting through Foundation.
- The `frequency` field: a floating-point constant nothing reads.
- The `Bus` class, its `weak delegate` and the CPU's `unowned var bus`: reference plumbing. The bus is modelled directly as the console's routing over the RAM chip (`NesBus`).
- The stub instructions (`sbc`, `cmp`, `cpx`, `cpy`, `inc`, `dec`, shifts and rotates, branches, flag set/clear, `rti`): the dispatcher answers them with zero and no change, and that is what is modelled.
- The older revision of the CPU under `Sources/SwiftNES/HW/`: the package builds `Sources/SwiftNes`, and the two revisions disagree. Only `Global.swift` is taken from the other directory, for its type aliases and `byteValue`.
- Decimal mode: nothing in the code implements it.
- Swift overflow traps: stated as preconditions (`CanCall`, `Safe`, `CanLoad`, the requires of each function); a run that traps is not modelled.
- Instructions.Call: its contract gives only a lower bound on the bus cycles a handler spends, not the exact count per instruction; the exact counts are stated on each handler function.
- Opcodes.ListedIsHandled: the converse, that every mode a handler lists appears in the table, is not stated.
- Execution.Run: the state after a run is stated for a start state from which no pass up to the budget traps (`Safe`); the model says nothing about a run that traps part-way.
