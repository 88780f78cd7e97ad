/**
 * The CPU's observable state and its bus-level primitives, as pure
 * functions on that state: byte and word reads and writes (one cycle per
 * byte on the bus), fetches at the program counter, the zero and sign flag
 * update, and the stack in page 0x01. Every Swift `+`, `-`, `+=` and `-=`
 * on the program counter or the stack pointer stops the program when it
 * overflows; those cases are excluded by the preconditions here.
 */
module Machine {
  import opened Global
  import opened Registers
  import opened NesBus

  datatype State = State(regs: Registers, ram: Ram, cycles: int)

  /** `readByte`: one bus read, one cycle. */
  function ReadByte(s: State, address: Address): (r: (State, Byte))
    ensures r.1 == Peek(s.ram, address)
    ensures r.0 == s.(cycles := s.cycles + 1)
  {
    (s.(cycles := s.cycles + 1), Peek(s.ram, address))
  }

  /** The little-endian word at `address` and `address + 1`, as the bus answers. */
  function Word(ram: Ram, address: Address): Address
    requires address < 0xFFFF
  {
    Combine(Peek(ram, address), Peek(ram, address + 1))
  }

  /**
   * `readWord`: two bus reads, low byte first, two cycles. `address + 1`
   * overflows for 0xFFFF.
   */
  function ReadWord(s: State, address: Address): (r: (State, Address))
    requires address < 0xFFFF
    ensures Low(r.1) == Peek(s.ram, address)
    ensures High(r.1) == Peek(s.ram, address + 1)
    ensures r.0 == s.(cycles := s.cycles + 2)
  {
    SplitCombine(Peek(s.ram, address), Peek(s.ram, address + 1));
    (s.(cycles := s.cycles + 2), Word(s.ram, address))
  }

  /** `writeByte`: one bus write, one cycle. */
  function WriteByte(s: State, data: Byte, address: Address): (r: State)
    ensures r.ram == Poke(s.ram, data, address)
    ensures r == s.(ram := r.ram, cycles := s.cycles + 1)
  {
    s.(ram := Poke(s.ram, data, address), cycles := s.cycles + 1)
  }

  /** `writeWord`: low byte at `address`, high byte at `address + 1`, two cycles. */
  function WriteWord(s: State, data: Address, address: Address): (r: State)
    requires address < 0xFFFF
    ensures r.ram == Poke(Poke(s.ram, Low(data), address), High(data), address + 1)
    ensures r == s.(ram := r.ram, cycles := s.cycles + 2)
  {
    s.(ram := Poke(Poke(s.ram, Low(data), address), High(data), address + 1), cycles := s.cycles + 2)
  }

  /** Writing a word and reading it back at a routed address gives the word again. */
  lemma ReadWordAfterWriteWord(s: State, data: Address, address: Address)
    requires address < RoutedLimit - 1
    ensures ReadWord(WriteWord(s, data, address), address).1 == data
    ensures WriteWord(s, data, address).regs == s.regs
    ensures WriteWord(s, data, address).cycles == s.cycles + 2
  {
    var once := Poke(s.ram, Low(data), address);
    PeekAfterPoke(s.ram, Low(data), address, address);
    PeekAfterPoke(once, High(data), address + 1, address);
    PeekAfterPoke(once, High(data), address + 1, address + 1);
    CombineSplit(data);
  }

  /** `fetch`: the byte at the program counter, then the counter moves on by one. */
  function Fetch(s: State): (r: (State, Byte))
    requires s.regs.pc < 0xFFFF
    ensures r.1 == Peek(s.ram, s.regs.pc)
    ensures r.0 == s.(regs := s.regs.(pc := s.regs.pc + 1), cycles := s.cycles + 1)
  {
    var (t, b) := ReadByte(s, s.regs.pc);
    (t.(regs := t.regs.(pc := t.regs.pc + 1)), b)
  }

  /** `fetchWord`: the word at the program counter, then the counter moves on by two. */
  function FetchWord(s: State): (r: (State, Address))
    requires s.regs.pc < 0xFFFE
    ensures Low(r.1) == Peek(s.ram, s.regs.pc)
    ensures High(r.1) == Peek(s.ram, s.regs.pc + 1)
    ensures r.0 == s.(regs := s.regs.(pc := s.regs.pc + 2), cycles := s.cycles + 2)
  {
    var (t, w) := ReadWord(s, s.regs.pc);
    (t.(regs := t.regs.(pc := t.regs.pc + 2)), w)
  }

  /**
   * `updateZeroAndSignFlagsUsing`: zero is set exactly for a zero value,
   * sign exactly when bit 7 of the value is set; nothing else changes,
   * bit 5 of the status byte included.
   */
  function ZeroAndSign(r: Registers, value: Byte): (q: Registers)
    ensures q.Flag(Zero) == (value == 0)
    ensures q.Flag(Sign) == (value & 0x80 != 0)
    ensures forall f :: f != Zero && f != Sign ==> q.Flag(f) == r.Flag(f)
    ensures q.p & 0x20 == r.p & 0x20
    ensures q == r.(p := q.p)
  {
    var z := r.WithFlag(Zero, value == 0);
    SetterKeepsBit5(r, Zero, value == 0);
    SetterKeepsBit5(z, Sign, value & 0x80 > 0);
    SetterKeepsOtherFlags(z, Sign, Zero, value & 0x80 > 0);
    forall f | f != Zero && f != Sign
      ensures z.WithFlag(Sign, value & 0x80 > 0).Flag(f) == r.Flag(f)
    {
      SetterKeepsOtherFlags(r, Zero, f, value == 0);
      SetterKeepsOtherFlags(z, Sign, f, value & 0x80 > 0);
    }
    z.WithFlag(Sign, value & 0x80 > 0)
  }

  /**
   * `spAddress`: the stack lives in page 0x01, at `0x0100 | sp`. The stack
   * pointer is below 0x100, so the or is an addition; `SpAddressIsOr`
   * proves the two agree.
   */
  function SpAddress(r: Registers): Address
  {
    0x0100 + r.sp as Address
  }

  /** The stack address is the bitwise or the source writes. */
  lemma SpAddressIsOr(r: Registers)
    ensures SpAddress(r) == ((0x0100 as bv16) | (r.sp as bv16)) as Address
  {
  }

  /**
   * `pushWordToStack`: the word goes to the two slots ending at the current
   * stack pointer, which then drops by two (it may not go below zero).
   */
  function PushWord(s: State, value: Address): (r: State)
    requires s.regs.sp >= 2
    ensures r == WriteWord(s, value, SpAddress(s.regs) - 1).(regs := s.regs.(sp := s.regs.sp - 2))
  {
    var t := WriteWord(s, value, SpAddress(s.regs) - 1);
    t.(regs := t.regs.(sp := t.regs.sp - 2))
  }

  /** `pushByteToStack`: the byte goes to the current slot, the pointer drops by one. */
  function PushByte(s: State, value: Byte): (r: State)
    requires s.regs.sp >= 1
    ensures r == WriteByte(s, value, SpAddress(s.regs)).(regs := s.regs.(sp := s.regs.sp - 1))
  {
    var t := WriteByte(s, value, SpAddress(s.regs));
    t.(regs := t.regs.(sp := t.regs.sp - 1))
  }

  /** `popWordFromStack`: the word just above the stack pointer, which then rises by two. */
  function PopWord(s: State): (r: (State, Address))
    requires s.regs.sp <= 0xFD
    ensures r.1 == ReadWord(s, SpAddress(s.regs) + 1).1
    ensures r.0 == s.(regs := s.regs.(sp := s.regs.sp + 2), cycles := s.cycles + 2)
  {
    var (t, w) := ReadWord(s, SpAddress(s.regs) + 1);
    (t.(regs := t.regs.(sp := t.regs.sp + 2)), w)
  }

  /**
   * `popByteFromStack`: the byte AT the current stack pointer, which then
   * rises by one. A push leaves the pointer one below the pushed byte, so
   * this reads the slot under it.
   */
  function PopByte(s: State): (r: (State, Byte))
    requires s.regs.sp <= 0xFE
    ensures r.1 == Peek(s.ram, SpAddress(s.regs))
    ensures r.0 == s.(regs := s.regs.(sp := s.regs.sp + 1), cycles := s.cycles + 1)
  {
    var (t, b) := ReadByte(s, SpAddress(s.regs));
    (t.(regs := t.regs.(sp := t.regs.sp + 1)), b)
  }

  /**
   * A word push followed by a word pop returns the word and restores every
   * register; the two bus accesses of each cost four cycles in all.
   */
  lemma PopWordAfterPushWord(s: State, value: Address)
    requires s.regs.sp >= 2
    ensures var (t, w) := PopWord(PushWord(s, value));
            w == value && t.regs == s.regs && t.cycles == s.cycles + 4
  {
    ReadWordAfterWriteWord(s, value, SpAddress(s.regs) - 1);
  }

  /**
   * A byte push stores the byte at the old stack address; the following
   * byte pop restores every register but answers the byte one slot below,
   * which the push did not touch. It answers the pushed value only when
   * that slot already held it.
   */
  lemma PopByteAfterPushByte(s: State, value: Byte)
    requires s.regs.sp >= 1
    ensures Peek(PushByte(s, value).ram, SpAddress(s.regs)) == value
    ensures PopByte(PushByte(s, value)).0.regs == s.regs
    ensures PopByte(PushByte(s, value)).0.cycles == s.cycles + 2
    ensures PopByte(PushByte(s, value)).1 == Peek(s.ram, SpAddress(s.regs) - 1)
  {
    PeekAfterPoke(s.ram, value, SpAddress(s.regs), SpAddress(s.regs));
    PopByteBelowPush(s, value);
  }

  /** The slot a pop after a push reads is the one under the pushed byte. */
  lemma PopByteBelowPush(s: State, value: Byte)
    requires s.regs.sp >= 1
    ensures PopByte(PushByte(s, value)).1 == Peek(s.ram, SpAddress(s.regs) - 1)
  {
    DecrementExact(s.regs.sp);
    PeekAfterPoke(s.ram, value, SpAddress(s.regs), SpAddress(s.regs) - 1);
  }

  /**
   * `load`'s start address: `program[0] | program[1] << 8` is computed on
   * bytes, where the shift drops the whole high byte, so only the first byte counts.
   */
  function LoadAddress(program: seq<Byte>): (address: Address)
    requires |program| >= 2
    ensures address as int == program[0] as int
  {
    (program[0] | (program[1] << 8)) as Address
  }

  /** The RAM after the first `n` bytes of `data` were written through the bus, byte `i` at `start + i`, in order. */
  function Written(ram: Ram, data: seq<Byte>, start: Address, n: nat): Ram
    requires n <= |data| && start as int + n <= 0x1_0000
  {
    if n == 0 then ram
    else Poke(Written(ram, data, start, n - 1), data[n - 1], start + (n - 1) as Address)
  }

  /** Each routed address among the first `n` written holds its own byte afterwards. */
  lemma {:induction false} WrittenAt(ram: Ram, data: seq<Byte>, start: Address, n: nat, k: nat)
    requires n <= |data| && start as int + n <= 0x1_0000 && k < n
    ensures Peek(Written(ram, data, start, n), start + k as Address) ==
            if start + k as Address < RoutedLimit then data[k] else 0
  {
    PeekAfterPoke(Written(ram, data, start, n - 1), data[n - 1], start + (n - 1) as Address, start + k as Address);
    if k < n - 1 {
      WrittenAt(ram, data, start, n - 1, k);
    }
  }

  /** The written addresses are the only ones a sequence of writes changes. */
  lemma {:induction false} WrittenElsewhere(ram: Ram, data: seq<Byte>, start: Address, n: nat, address: Address)
    requires n <= |data| && start as int + n <= 0x1_0000
    requires address < start || address as int >= start as int + n
    ensures Peek(Written(ram, data, start, n), address) == Peek(ram, address)
  {
    if n > 0 {
      PeekAfterPoke(Written(ram, data, start, n - 1), data[n - 1], start + (n - 1) as Address, address);
      WrittenElsewhere(ram, data, start, n - 1, address);
    }
  }

  /**
   * `load` demands at least three bytes, and `address + Address(i)` stops
   * the program unless the last target address fits in 16 bits.
   */
  predicate CanLoad(program: seq<Byte>)
  {
    |program| > 2 && program[0] as int + (|program| - 2) <= 0x1_0000
  }

  /** The RAM after `load`: every byte after the first two, written from the start address on. */
  function LoadedRam(ram: Ram, program: seq<Byte>): Ram
    requires CanLoad(program)
  {
    Written(ram, program[2..], LoadAddress(program), |program| - 2)
  }

  /**
   * `load` puts byte `k + 2` of the program at the start address plus `k`,
   * when the bus routes it, and leaves every other address as it was.
   */
  lemma LoadPlacesProgram(ram: Ram, program: seq<Byte>, k: nat)
    requires CanLoad(program) && k < |program| - 2
    ensures var address := LoadAddress(program) + k as Address;
            Peek(LoadedRam(ram, program), address) ==
            if address < RoutedLimit then program[k + 2] else 0
  {
    WrittenAt(ram, program[2..], LoadAddress(program), |program| - 2, k);
  }

  /** `load` changes no address outside the range it writes. */
  lemma LoadKeepsRest(ram: Ram, program: seq<Byte>, address: Address)
    requires CanLoad(program)
    requires address < LoadAddress(program) || address as int >= LoadAddress(program) as int + |program| - 2
    ensures Peek(LoadedRam(ram, program), address) == Peek(ram, address)
  {
    WrittenElsewhere(ram, program[2..], LoadAddress(program), |program| - 2, address);
  }
}
