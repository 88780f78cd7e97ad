/**
 * The CPU object: its registers, its cycle counter and the memory its bus
 * routes to. Every method changes the object step by step as the source
 * does, and its contract ties the new state to the function of the same
 * name on the state before the call, so the properties proved about the
 * functions hold for the object.
 */
module CpuCore {
  import opened Global
  import opened Registers
  import opened MemoryDevice
  import opened NesBus
  import opened Machine
  import opened Addressing
  import opened Instructions
  import opened Opcodes
  import opened Execution

  class Cpu {
    /** The RAM chip the console's bus routes to. */
    const memory: Memory
    var registers: Registers
    var totalCycles: int

    ghost predicate Valid()
      reads this, memory
    {
      Routable(memory)
    }

    /** The CPU as a value: registers, the RAM's bytes and the cycle counter. */
    ghost function Snapshot(): State
      reads this, memory
      requires Valid()
    {
      State(registers, memory.storage, totalCycles)
    }

    /** `init(bus:)`: registers at their power-on values and no cycles counted. */
    constructor (memory: Memory)
      requires Routable(memory)
      ensures Valid() && this.memory == memory
      ensures registers == Init() && totalCycles == 0
    {
      this.memory := memory;
      registers := Init();
      totalCycles := 0;
    }

    /** `reset()`: registers back to their power-on values and the counter to zero; the RAM is untouched. */
    method Reset()
      requires Valid()
      modifies this
      ensures Valid() && registers == old(registers).Reset() && totalCycles == 0
    {
      registers := registers.Reset();
      totalCycles := 0;
    }

    // -------------------------------------------------------------------
    // Bus operations

    /** `readByte`: one read through the bus, one cycle. */
    method ReadByte(address: Address) returns (b: Byte)
      requires Valid()
      modifies this
      ensures Valid() && (Snapshot(), b) == Machine.ReadByte(old(Snapshot()), address)
    {
      b := Read(memory, address);
      totalCycles := totalCycles + 1;
    }

    /** `readWord`: two reads through the bus, low byte first, two cycles. */
    method ReadWord(address: Address) returns (w: Address)
      requires Valid() && address < 0xFFFF
      modifies this
      ensures Valid() && (Snapshot(), w) == Machine.ReadWord(old(Snapshot()), address)
    {
      w := Combine(Read(memory, address), Read(memory, address + 1));
      totalCycles := totalCycles + 2;
    }

    /** `writeByte`: one write through the bus, one cycle. */
    method WriteByte(data: Byte, address: Address)
      requires Valid()
      modifies this, memory
      ensures Valid() && Snapshot() == Machine.WriteByte(old(Snapshot()), data, address)
    {
      Write(memory, data, address);
      totalCycles := totalCycles + 1;
    }

    /** `writeWord`: the low byte, then the high byte one address up, two cycles. */
    method WriteWord(data: Address, address: Address)
      requires Valid() && address < 0xFFFF
      modifies this, memory
      ensures Valid() && Snapshot() == Machine.WriteWord(old(Snapshot()), data, address)
    {
      Write(memory, Low(data), address);
      Write(memory, High(data), address + 1);
      totalCycles := totalCycles + 2;
    }

    /** `fetch`: the byte at the program counter, which then moves on by one. */
    method Fetch() returns (b: Byte)
      requires Valid() && registers.pc < 0xFFFF
      modifies this
      ensures Valid() && (Snapshot(), b) == Machine.Fetch(old(Snapshot()))
    {
      b := ReadByte(registers.pc);
      registers := registers.(pc := registers.pc + 1);
    }

    /** `fetchWord`: the word at the program counter, which then moves on by two. */
    method FetchWord() returns (w: Address)
      requires Valid() && registers.pc < 0xFFFE
      modifies this
      ensures Valid() && (Snapshot(), w) == Machine.FetchWord(old(Snapshot()))
    {
      w := ReadWord(registers.pc);
      registers := registers.(pc := registers.pc + 2);
    }

    /** `updateZeroAndSignFlagsUsing`: Z and N from the value, zero flag first. */
    method UpdateZeroAndSignFlags(value: Byte)
      requires Valid()
      modifies this
      ensures Valid() && registers == ZeroAndSign(old(registers), value)
      ensures totalCycles == old(totalCycles)
    {
      registers := registers.WithFlag(Zero, value == 0);
      registers := registers.WithFlag(Sign, value & 0x80 > 0);
    }

    // -------------------------------------------------------------------
    // Stack

    /** `pushWordToStack`. */
    method PushWordToStack(value: Address)
      requires Valid() && registers.sp >= 2
      modifies this, memory
      ensures Valid() && Snapshot() == PushWord(old(Snapshot()), value)
    {
      WriteWord(value, SpAddress(registers) - 1);
      registers := registers.(sp := registers.sp - 2);
    }

    /** `pushByteToStack`. */
    method PushByteToStack(value: Byte)
      requires Valid() && registers.sp >= 1
      modifies this, memory
      ensures Valid() && Snapshot() == PushByte(old(Snapshot()), value)
    {
      WriteByte(value, SpAddress(registers));
      registers := registers.(sp := registers.sp - 1);
    }

    /** `popWordFromStack`. */
    method PopWordFromStack() returns (value: Address)
      requires Valid() && registers.sp <= 0xFD
      modifies this
      ensures Valid() && (Snapshot(), value) == PopWord(old(Snapshot()))
    {
      value := ReadWord(SpAddress(registers) + 1);
      registers := registers.(sp := registers.sp + 2);
    }

    /** `popByteFromStack`. */
    method PopByteFromStack() returns (value: Byte)
      requires Valid() && registers.sp <= 0xFE
      modifies this
      ensures Valid() && (Snapshot(), value) == PopByte(old(Snapshot()))
    {
      value := ReadByte(SpAddress(registers));
      registers := registers.(sp := registers.sp + 1);
    }

    // -------------------------------------------------------------------
    // Addressing modes: each resolver fetches its operand and answers the
    // effective address; the counting ones add their bonus to `cycles`.

    /** `fetchZeroPageAddress`. */
    method FetchZeroPageAddress() returns (address: Address)
      requires Valid() && registers.pc < 0xFFFF
      modifies this
      ensures Valid() && Resolved(Snapshot(), address, 0) == ZeroPageAddress(old(Snapshot()))
    {
      var b := Fetch();
      address := b as Address;
    }

    /** `fetchZeroPageXAddress`. */
    method FetchZeroPageXAddress() returns (address: Address)
      requires Valid() && registers.pc < 0xFFFF
      modifies this
      ensures Valid() && Resolved(Snapshot(), address, 0) == ZeroPageXAddress(old(Snapshot()))
    {
      var b := Fetch();
      address := InPageZero(b, registers.x);
    }

    /** `fetchZeroPageYAddress`. */
    method FetchZeroPageYAddress() returns (address: Address)
      requires Valid() && registers.pc < 0xFFFF
      modifies this
      ensures Valid() && Resolved(Snapshot(), address, 0) == ZeroPageYAddress(old(Snapshot()))
    {
      var b := Fetch();
      address := InPageZero(b, registers.y);
    }

    /** `fetchAbsoluteAddress`. */
    method FetchAbsoluteAddress() returns (address: Address)
      requires Valid() && registers.pc < 0xFFFE
      modifies this
      ensures Valid() && Resolved(Snapshot(), address, 0) == AbsoluteAddress(old(Snapshot()))
    {
      address := FetchWord();
    }

    /** `fetchAbsoluteXAddress(cycles:)`, with the in-out count as a parameter and a result. */
    method FetchAbsoluteXAddress(cycles: int) returns (address: Address, counted: int)
      requires Valid() && registers.pc < 0xFFFE && Indexable(Word(memory.storage, registers.pc), registers.x)
      modifies this
      ensures Valid()
      ensures var r := AbsoluteXAddress(old(Snapshot()));
              Snapshot() == r.s && address == r.address && counted == cycles + r.bonus
    {
      var base := FetchWord();
      address := base + registers.x as Address;
      counted := cycles;
      if address - base >= 0xFF {
        counted := counted + 1;
      }
    }

    /** `fetchAbsoluteYAddress(cycles:)`, with the in-out count as a parameter and a result. */
    method FetchAbsoluteYAddress(cycles: int) returns (address: Address, counted: int)
      requires Valid() && registers.pc < 0xFFFE && Indexable(Word(memory.storage, registers.pc), registers.y)
      modifies this
      ensures Valid()
      ensures var r := AbsoluteYAddress(old(Snapshot()));
              Snapshot() == r.s && address == r.address && counted == cycles + r.bonus
    {
      var base := FetchWord();
      address := base + registers.y as Address;
      counted := cycles;
      if address - base >= 0xFF {
        counted := counted + 1;
      }
    }

    /** `fetchIndexedIndirectAddress`. */
    method FetchIndexedIndirectAddress() returns (address: Address)
      requires Valid() && registers.pc < 0xFFFF
      modifies this
      ensures Valid() && Resolved(Snapshot(), address, 0) == IndexedIndirectAddress(old(Snapshot()))
    {
      var b := Fetch();
      address := ReadWord(InPageZero(b, registers.x));
    }

    /** `fetchIndirectIndexedAddress(cycles:)`, with the in-out count as a parameter and a result. */
    method FetchIndirectIndexedAddress(cycles: int) returns (address: Address, counted: int)
      requires Valid() && registers.pc < 0xFFFF
      requires Indexable(Word(memory.storage, Peek(memory.storage, registers.pc) as Address), registers.y)
      modifies this
      ensures Valid()
      ensures var r := IndirectIndexedAddress(old(Snapshot()));
              Snapshot() == r.s && address == r.address && counted == cycles + r.bonus
    {
      var pointer := Fetch();
      var base := ReadWord(pointer as Address);
      address := base + registers.y as Address;
      counted := cycles;
      if address - base >= 0xFF {
        counted := counted + 1;
      }
    }

    /** The resolver of a memory mode, with the count its counting resolvers add to. */
    method FetchAddress(m: AddressingMode, cycles: int) returns (address: Address, counted: int)
      requires Valid() && CanResolve(Snapshot(), m)
      modifies this
      ensures Valid()
      ensures var r := Resolve(old(Snapshot()), m);
              Snapshot() == r.s && address == r.address && counted == cycles + r.bonus
    {
      counted := cycles;
      match m
      case ZeroPage => address := FetchZeroPageAddress();
      case ZeroPageX => address := FetchZeroPageXAddress();
      case ZeroPageY => address := FetchZeroPageYAddress();
      case Absolute => address := FetchAbsoluteAddress();
      case AbsoluteX => address, counted := FetchAbsoluteXAddress(cycles);
      case AbsoluteY => address, counted := FetchAbsoluteYAddress(cycles);
      case IndexedIndirect => address := FetchIndexedIndirectAddress();
      case IndirectIndexed => address, counted := FetchIndirectIndexedAddress(cycles);
    }

    /** `fetch()` for immediate mode, `readByte(fetch…Address())` for the memory modes. */
    method ReadOperand(m: AddressingMode, cycles: int) returns (value: Byte, counted: int)
      requires Valid() && CanRead(Snapshot(), m)
      modifies this
      ensures Valid()
      ensures var r := Instructions.ReadOperand(old(Snapshot()), m);
              Snapshot() == r.s && value == r.value && counted == cycles + r.bonus
    {
      if m == Immediate {
        value := Fetch();
        counted := cycles;
      } else {
        var address;
        address, counted := FetchAddress(m, cycles);
        value := ReadByte(address);
      }
    }

    // -------------------------------------------------------------------
    // Instruction handlers, for the modes they list

    /** `lda`, `ldx`, `ldy`. */
    method LoadRegister(target: Register, m: AddressingMode) returns (cycles: int)
      requires Valid() && IsDataRegister(target) && CanRead(Snapshot(), m)
      modifies this
      ensures Valid() && Effect(Snapshot(), cycles) == Instructions.Load(old(Snapshot()), target, m)
    {
      var value;
      value, cycles := ReadOperand(m, ReadCycles(m));
      registers := registers.Set(target, value);
      UpdateZeroAndSignFlags(value);
    }

    /** `sta`, `stx`, `sty`: the counting resolvers are called without a count. */
    method StoreRegister(source: Register, m: AddressingMode) returns (cycles: int)
      requires Valid() && IsDataRegister(source) && CanResolve(Snapshot(), m)
      modifies this, memory
      ensures Valid() && Effect(Snapshot(), cycles) == Store(old(Snapshot()), source, m)
    {
      var data := registers.Get(source);
      var address, ignored := FetchAddress(m, 0);
      WriteByte(data, address);
      cycles := StoreCycles(m);
    }

    /** `and`, `ora`, `eor`: `&=`, `|=` and `^=` on the accumulator. */
    method LogicOperation(op: LogicOp, m: AddressingMode) returns (cycles: int)
      requires Valid() && CanRead(Snapshot(), m)
      modifies this
      ensures Valid() && Effect(Snapshot(), cycles) == Logic(old(Snapshot()), op, m)
    {
      var value;
      value, cycles := ReadOperand(m, ReadCycles(m));
      registers := registers.(a := Apply(op, registers.a, value));
      UpdateZeroAndSignFlags(registers.a);
    }

    /** The setter sequence with the flags of the 16-bit sum is the register update of `adc`. */
    static lemma AdcSetters(r: Registers, value: Byte, result: bv16)
      requires result == Sum(r.a, value, ByteValue(r.Flag(Carry)))
      ensures SetAdcResult(r, result & 0xFF00 > 0, result & 0x00FF == 0, result & 0x0080 > 0,
                           ((result ^ (r.a as bv16)) & (result ^ (value as bv16)) & 0x0080) > 0,
                           (result & 0xFF) as Byte) == AddWithCarry(r, value)
    {
    }

    /** The register update of `adc`, setter by setter. */
    static method AddToAccumulator(registers: Registers, value: Byte) returns (updated: Registers)
      ensures updated == AddWithCarry(registers, value)
    {
      var result := Sum(registers.a, value, ByteValue(registers.Flag(Carry)));
      AdcSetters(registers, value, result);
      updated := registers.WithFlag(Carry, result & 0xFF00 > 0);
      updated := updated.WithFlag(Zero, result & 0x00FF == 0);
      updated := updated.WithFlag(Sign, result & 0x0080 > 0);
      updated := updated.WithFlag(Overflow, ((result ^ (registers.a as bv16)) & (result ^ (value as bv16)) & 0x0080) > 0);
      updated := updated.(a := (result & 0xFF) as Byte);
    }

    /** `adc`: the operand is read, then added to the accumulator with the carry. */
    method AddWithCarryOperation(m: AddressingMode) returns (cycles: int)
      requires Valid() && CanRead(Snapshot(), m)
      modifies this
      ensures Valid() && Effect(Snapshot(), cycles) == AddMemory(old(Snapshot()), m)
    {
      var value;
      value, cycles := ReadOperand(m, ReadCycles(m));
      registers := AddToAccumulator(registers, value);
    }

    /** `bit`: zero, overflow and sign flags from the accumulator and the operand. */
    method BitOperation(m: AddressingMode) returns (cycles: int)
      requires Valid() && CanRead(Snapshot(), m)
      modifies this
      ensures Valid() && Effect(Snapshot(), cycles) == BitTest(old(Snapshot()), m)
    {
      var value, ignored := ReadOperand(m, 0);
      cycles := ReadCycles(m);
      registers := registers.WithFlag(Zero, registers.a & value > 0);
      registers := registers.WithFlag(Overflow, value & 0x40 > 0);
      registers := registers.WithFlag(Sign, value & 0x80 > 0);
    }

    /** `tax`, `tay`, `txa`, `tya`, `tsx`, `txs`. */
    method TransferRegister(source: Register, target: Register) returns (cycles: int)
      requires Valid()
      modifies this
      ensures Valid() && Effect(Snapshot(), cycles) == Transfer(old(Snapshot()), source, target)
    {
      var value := registers.Get(source);
      registers := registers.Set(target, value);
      if target != SP {
        UpdateZeroAndSignFlags(value);
      }
      cycles := 2;
    }

    /** `inx`, `iny` (`&+ 1`), `dex`, `dey` (`&- 1`). */
    method CountRegister(target: Register, up: bool) returns (cycles: int)
      requires Valid() && IsDataRegister(target)
      modifies this
      ensures Valid() && Effect(Snapshot(), cycles) == Count(old(Snapshot()), target, up)
    {
      var before := registers.Get(target);
      var value := if up then before + 1 else before - 1;
      registers := registers.Set(target, value);
      UpdateZeroAndSignFlags(value);
      cycles := 2;
    }

    /** `pha`, `php`: the byte goes to the stack. */
    method PushRegister(value: Byte) returns (cycles: int)
      requires Valid() && registers.sp >= 1
      modifies this, memory
      ensures Valid() && Effect(Snapshot(), cycles) == Push(old(Snapshot()), value)
    {
      PushByteToStack(value);
      cycles := 3;
    }

    /** `pla`. */
    method PullAccumulatorOperation() returns (cycles: int)
      requires Valid() && registers.sp <= 0xFE
      modifies this
      ensures Valid() && Effect(Snapshot(), cycles) == PullAccumulator(old(Snapshot()))
    {
      var value := PopByteFromStack();
      registers := registers.(a := value);
      UpdateZeroAndSignFlags(registers.a);
      cycles := 4;
    }

    /** `plp`. */
    method PullStatusOperation() returns (cycles: int)
      requires Valid() && registers.sp <= 0xFE
      modifies this
      ensures Valid() && Effect(Snapshot(), cycles) == PullStatus(old(Snapshot()))
    {
      var value := PopByteFromStack();
      registers := registers.(p := value);
      cycles := 4;
    }

    /** `jmp`, absolute and indirect. */
    method JumpOperation(m: AddressingMode) returns (cycles: int)
      requires Valid() && (m == Absolute || m == Indirect)
      requires registers.pc < 0xFFFE && (m == Indirect ==> Word(memory.storage, registers.pc) < 0xFFFF)
      modifies this
      ensures Valid() && Effect(Snapshot(), cycles) == Jump(old(Snapshot()), m)
    {
      var address := FetchAbsoluteAddress();
      if m == Absolute {
        registers := registers.(pc := address);
        cycles := 3;
      } else {
        var target := ReadWord(address);
        registers := registers.(pc := target);
        cycles := 5;
      }
    }

    /** `jsr`: the address of the last operand byte goes to the stack. */
    method JumpToSubroutineOperation() returns (cycles: int)
      requires Valid() && registers.pc < 0xFFFE && registers.sp >= 2
      modifies this, memory
      ensures Valid() && Effect(Snapshot(), cycles) == JumpToSubroutine(old(Snapshot()))
    {
      var address := FetchAbsoluteAddress();
      PushWordToStack(registers.pc - 1);
      registers := registers.(pc := address);
      cycles := 6;
    }

    /** `rts`: the popped word plus one. */
    method ReturnFromSubroutineOperation() returns (cycles: int)
      requires Valid() && registers.sp <= 0xFD && PopWord(Snapshot()).1 < 0xFFFF
      modifies this
      ensures Valid() && Effect(Snapshot(), cycles) == ReturnFromSubroutine(old(Snapshot()))
    {
      var address := PopWordFromStack();
      registers := registers.(pc := address + 1);
      cycles := 6;
    }

    // -------------------------------------------------------------------
    // Dispatch

    /** The handlers that read an operand: loads, logic, `bit` and `adc`. */
    method CallRead(i: Instruction, m: AddressingMode) returns (cycles: int)
      requires Valid() && CanCall(Snapshot(), i, m) && Acts(i, m) && IsRead(i)
      modifies this
      ensures Valid() && Effect(Snapshot(), cycles) == ReadHandler(old(Snapshot()), i, m)
    {
      if IsLoad(i) {
        cycles := LoadRegister(LoadTarget(i), m);
      } else if IsLogic(i) {
        cycles := LogicOperation(LogicOf(i), m);
      } else if i == Bit {
        cycles := BitOperation(m);
      } else {
        cycles := AddWithCarryOperation(m);
      }
    }

    /** The handlers of transfers and counting. */
    method CallRegister(i: Instruction) returns (cycles: int)
      requires Valid() && (IsTransfer(i) || IsCount(i))
      modifies this
      ensures Valid() && Effect(Snapshot(), cycles) == RegisterHandler(old(Snapshot()), i)
    {
      if IsTransfer(i) {
        cycles := TransferRegister(TransferSource(i), TransferTarget(i));
      } else {
        cycles := CountRegister(CountTarget(i), i == Inx || i == Iny);
      }
    }

    /** The handlers of the stack instructions. */
    method CallStack(i: Instruction) returns (cycles: int)
      requires Valid() && IsStackOperation(i)
      requires (i == Pha || i == Php) ==> registers.sp >= 1
      requires (i == Pla || i == Plp) ==> registers.sp <= 0xFE
      modifies this, memory
      ensures Valid() && Effect(Snapshot(), cycles) == StackHandler(old(Snapshot()), i)
    {
      if i == Pha {
        cycles := PushRegister(registers.a);
      } else if i == Php {
        cycles := PushRegister(registers.p);
      } else if i == Pla {
        cycles := PullAccumulatorOperation();
      } else {
        cycles := PullStatusOperation();
      }
    }

    /** The handlers of the jump instructions, and the dead end no acting instruction reaches. */
    method CallJump(i: Instruction, m: AddressingMode) returns (cycles: int)
      requires Valid() && CanCall(Snapshot(), i, m) && Acts(i, m)
      modifies this, memory
      ensures Valid() && Effect(Snapshot(), cycles) == JumpHandler(old(Snapshot()), i, m)
    {
      if i == Jmp {
        cycles := JumpOperation(m);
      } else if i == Jsr {
        cycles := JumpToSubroutineOperation();
      } else if i == Rts {
        cycles := ReturnFromSubroutineOperation();
      } else {
        cycles := 0;
      }
    }

    /**
     * `call(instruction:addressingMode:)`: the handler of the instruction
     * for the mode, or zero and no change when the handler does not list
     * the mode, is a stub or only prints.
     */
    method Call(i: Instruction, m: AddressingMode) returns (cycles: int)
      requires Valid() && CanCall(Snapshot(), i, m)
      modifies this, memory
      ensures Valid() && Effect(Snapshot(), cycles) == Instructions.Call(old(Snapshot()), i, m)
    {
      ghost var before := Snapshot();
      if !Acts(i, m) {
        cycles := 0;
      } else if IsRead(i) {
        assert Instructions.Call(before, i, m) == ReadHandler(before, i, m);
        cycles := CallRead(i, m);
      } else if IsStore(i) {
        assert Instructions.Call(before, i, m) == Instructions.Store(before, StoreSource(i), m);
        cycles := StoreRegister(StoreSource(i), m);
      } else if IsTransfer(i) || IsCount(i) {
        assert Instructions.Call(before, i, m) == RegisterHandler(before, i);
        cycles := CallRegister(i);
      } else if IsStackOperation(i) {
        assert Instructions.Call(before, i, m) == StackHandler(before, i);
        cycles := CallStack(i);
      } else {
        assert Instructions.Call(before, i, m) == JumpHandler(before, i, m);
        cycles := CallJump(i, m);
      }
    }

    // -------------------------------------------------------------------
    // Loading and running

    /**
     * `load(_:)`: the bytes after the first two go through the bus (not
     * through the counting `writeByte`) to the start address and on; the
     * start address is the first byte, since the second, shifted left by
     * eight inside a byte, is zero.
     */
    method Load(program: seq<Byte>) returns (address: Address)
      requires Valid() && CanLoad(program)
      modifies memory
      ensures Valid() && address == LoadAddress(program)
      ensures memory.storage == LoadedRam(old(memory.storage), program)
    {
      address := (program[0] | (program[1] << 8)) as Address;
      var data := program[2..];
      var i := 0;
      while i < |data|
        invariant 0 <= i <= |data| && Valid()
        invariant memory.storage == Written(old(memory.storage), data, address, i)
      {
        Write(memory, data[i], address + i as Address);
        i := i + 1;
      }
    }

    /**
     * `execute(cycles:)`: fetch, look up and call until the counter reaches
     * the budget, or stop at a byte the table does not list.
     */
    method Execute(cycles: int)
      requires Valid() && Safe(Snapshot(), cycles)
      modifies this, memory
      ensures Valid() && Snapshot() == Run(old(Snapshot()), cycles)
    {
      while totalCycles < cycles
        invariant Valid() && Safe(Snapshot(), cycles)
        invariant Run(Snapshot(), cycles) == Run(old(Snapshot()), cycles)
        decreases cycles - totalCycles
      {
        ghost var before := Snapshot();
        var opcodeByte := Fetch();
        var opcode := Lookup(opcodeByte);
        if opcode.None? {
          return;
        }
        var ignored := Call(opcode.value.instruction, opcode.value.mode);
        assert Snapshot() == Step(before).s;
      }
    }
  }
}
