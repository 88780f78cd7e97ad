/**
 * The instruction set and its handlers, as functions from a CPU state to
 * an `Effect`: the state after the handler ran and the cycle count it
 * reports. A handler reports the documented cycle count of its mode, while
 * the state's own counter only grows by the bus cycles the handler spends;
 * the two are different numbers and the dispatcher's caller drops the first.
 *
 * Only some instructions have a handler that does anything. The others are
 * stubs that report zero cycles, and `brk`, `nop` and `invalid` only print.
 * A handler that does not list the mode it is given reports zero cycles and
 * leaves the state alone.
 */
module Instructions {
  import opened Global
  import opened Registers
  import opened NesBus
  import opened Machine
  import opened Addressing

  datatype Instruction =
    | Invalid
    | Lda | Ldx | Ldy | Sta | Stx | Sty
    | Tax | Tay | Txa | Tya | Tsx | Txs
    | Pha | Php | Pla | Plp
    | And | Eor | Ora | Bit
    | Adc | Sbc | Cmp | Cpx | Cpy
    | Inc | Inx | Iny | Dec | Dex | Dey
    | Asl | Lsr | Rol | Ror
    | Jmp | Jsr | Rts
    | Bcc | Bcs | Beq | Bmi | Bne | Bpl | Bvc | Bvs
    | Clc | Cld | Cli | Clv | Sec | Sed | Sei
    | Brk | Nop | Rti

  /** The state after a handler ran, and the cycle count the handler reports. */
  datatype Effect = Effect(s: State, cycles: int)

  /** The instructions the dispatcher answers with a bare zero. */
  predicate IsStub(i: Instruction)
  {
    match i
    case Sbc | Cmp | Cpx | Cpy | Inc | Dec | Asl | Lsr | Rol | Ror => true
    case Bcc | Bcs | Beq | Bmi | Bne | Bpl | Bvc | Bvs => true
    case Clc | Cld | Cli | Clv | Sec | Sed | Sei | Rti => true
    case _ => false
  }

  /** The instructions whose handler only prints a message. */
  predicate OnlyPrints(i: Instruction)
  {
    i == Invalid || i == Brk || i == Nop
  }

  /**
   * The modes each working handler lists in its `switch` or `guard`; for
   * any other mode it reports zero cycles without touching the state.
   */
  predicate Acts(i: Instruction, m: AddressingMode)
  {
    match i
    case Lda | And | Ora | Eor | Adc =>
      m == Immediate || (IsMemoryMode(m) && m != ZeroPageY)
    case Ldx => m == Immediate || m == ZeroPage || m == ZeroPageY || m == Absolute || m == AbsoluteY
    case Ldy => m == Immediate || m == ZeroPage || m == ZeroPageX || m == Absolute || m == AbsoluteX
    case Sta => IsMemoryMode(m) && m != ZeroPageY
    case Stx => m == ZeroPage || m == ZeroPageY || m == Absolute
    case Sty => m == ZeroPage || m == ZeroPageX || m == Absolute
    case Bit => m == ZeroPage || m == Absolute
    case Jmp => m == Absolute || m == Indirect
    case Jsr => m == Absolute
    case Tax | Tay | Txa | Tya | Tsx | Txs | Pha | Php | Pla | Plp | Inx | Iny | Dex | Dey | Rts => m == Implicit
    case _ => false
  }

  // ---------------------------------------------------------------------
  // Operands

  /** An operand byte, the state after reading it, and the resolver's bonus cycle. */
  datatype Operand = Operand(s: State, value: Byte, bonus: nat)

  /** Reading the operand does not stop the program. */
  predicate CanRead(s: State, m: AddressingMode)
  {
    if m == Immediate then s.regs.pc < 0xFFFF else CanResolve(s, m)
  }

  /** Where the operand is: right after the opcode for immediate mode, else the resolved address. */
  function OperandAddress(s: State, m: AddressingMode): Address
    requires CanRead(s, m)
  {
    if m == Immediate then s.regs.pc else Resolve(s, m).address
  }

  /** Bus cycles spent reading an operand: the resolver's, plus the read of the operand itself. */
  function ReadBusCycles(m: AddressingMode): nat
  {
    if m == Immediate then 1 else ResolveCycles(m) + 1
  }

  /**
   * `fetch()` for immediate mode, `readByte(fetch…Address())` for the memory
   * modes: the byte at the operand's address, with the program counter past
   * the operand bytes and one cycle per byte on the bus.
   */
  function ReadOperand(s: State, m: AddressingMode): (r: Operand)
    requires CanRead(s, m)
    ensures r.value == Peek(s.ram, OperandAddress(s, m))
    ensures r.s == s.(regs := s.regs.(pc := s.regs.pc + OperandBytes(m)), cycles := s.cycles + ReadBusCycles(m))
    ensures r.bonus == IndexBonus(s.regs, m)
  {
    if m == Immediate then
      var (t, v) := Fetch(s);
      Operand(t, v, 0)
    else
      var a := Resolve(s, m);
      ResolveBonus(s, m);
      var (t, v) := ReadByte(a.s, a.address);
      Operand(t, v, a.bonus)
  }

  /** The cycle counts the read handlers (loads, logic, `bit`, `adc`) report, before the bonus. */
  function ReadCycles(m: AddressingMode): nat
  {
    match m
    case Immediate => 2
    case ZeroPage => 3
    case ZeroPageX | ZeroPageY | Absolute | AbsoluteX | AbsoluteY => 4
    case IndexedIndirect => 6
    case IndirectIndexed => 5
    case _ => 0
  }

  /** The cycle counts the store handlers report; they never add a bonus. */
  function StoreCycles(m: AddressingMode): nat
  {
    match m
    case ZeroPage => 3
    case ZeroPageX | ZeroPageY | Absolute => 4
    case AbsoluteX | AbsoluteY => 5
    case IndexedIndirect | IndirectIndexed => 6
    case _ => 0
  }

  // ---------------------------------------------------------------------
  // Loads and stores

  /** A register the load, store, transfer and counting handlers work on. */
  predicate IsDataRegister(r: Register)
  {
    r != SP
  }

  /**
   * `lda`, `ldx`, `ldy`: the operand goes to the target register, Z and N
   * are set from it, and no other flag or register changes apart from the
   * program counter, which moves past the operand. The reported count is
   * the mode's count plus the bonus cycle of the counting resolvers.
   */
  function Load(s: State, target: Register, m: AddressingMode): (e: Effect)
    requires IsDataRegister(target) && CanRead(s, m)
    ensures e.s.regs.Get(target) == Peek(s.ram, OperandAddress(s, m))
    ensures forall o :: o != target ==> e.s.regs.Get(o) == s.regs.Get(o)
    ensures e.s.regs.Flag(Zero) == (e.s.regs.Get(target) == 0)
    ensures e.s.regs.Flag(Sign) == (e.s.regs.Get(target) & 0x80 != 0)
    ensures forall f :: f != Zero && f != Sign ==> e.s.regs.Flag(f) == s.regs.Flag(f)
    ensures e.s.regs.pc == s.regs.pc + OperandBytes(m)
    ensures e.s.ram == s.ram && e.s.cycles == s.cycles + ReadBusCycles(m)
    ensures e.cycles == ReadCycles(m) + IndexBonus(s.regs, m)
  {
    var r := ReadOperand(s, m);
    var q := r.s.regs.Set(target, r.value);
    Effect(r.s.(regs := ZeroAndSign(q, r.value)), ReadCycles(m) + r.bonus)
  }

  /**
   * `sta`, `stx`, `sty`: the register goes to the effective address through
   * the bus; no register except the program counter changes, and no flag.
   */
  function Store(s: State, source: Register, m: AddressingMode): (e: Effect)
    requires IsDataRegister(source) && CanResolve(s, m)
    ensures e.s.ram == Poke(s.ram, s.regs.Get(source), Resolve(s, m).address)
    ensures e.s.regs == s.regs.(pc := s.regs.pc + OperandBytes(m))
    ensures e.s.cycles == s.cycles + ResolveCycles(m) + 1
    ensures e.cycles == StoreCycles(m)
  {
    var r := Resolve(s, m);
    Effect(WriteByte(r.s, s.regs.Get(source), r.address), StoreCycles(m))
  }

  // ---------------------------------------------------------------------
  // Logic and arithmetic

  datatype LogicOp = AndOp | OrOp | XorOp

  /** The byte operation of `&=`, `|=` and `^=`. */
  function Apply(op: LogicOp, a: Byte, v: Byte): Byte
  {
    match op
    case AndOp => a & v
    case OrOp => a | v
    case XorOp => a ^ v
  }

  /**
   * `and`, `ora`, `eor`: the accumulator becomes the accumulator combined
   * with the operand; only Z and N change among the flags, set from the result.
   */
  function Logic(s: State, op: LogicOp, m: AddressingMode): (e: Effect)
    requires CanRead(s, m)
    ensures e.s.regs.a == Apply(op, s.regs.a, Peek(s.ram, OperandAddress(s, m)))
    ensures e.s.regs.x == s.regs.x && e.s.regs.y == s.regs.y && e.s.regs.sp == s.regs.sp
    ensures e.s.regs.Flag(Zero) == (e.s.regs.a == 0)
    ensures e.s.regs.Flag(Sign) == (e.s.regs.a & 0x80 != 0)
    ensures forall f :: f != Zero && f != Sign ==> e.s.regs.Flag(f) == s.regs.Flag(f)
    ensures e.s.regs.pc == s.regs.pc + OperandBytes(m)
    ensures e.s.ram == s.ram && e.s.cycles == s.cycles + ReadBusCycles(m)
    ensures e.cycles == ReadCycles(m) + IndexBonus(s.regs, m)
  {
    var r := ReadOperand(s, m);
    var a := Apply(op, s.regs.a, r.value);
    Effect(r.s.(regs := ZeroAndSign(r.s.regs.(a := a), a)), ReadCycles(m) + r.bonus)
  }

  /** The 16-bit sum `adc` forms: accumulator, operand and carry, each widened first. */
  function Sum(a: Byte, value: Byte, carry: Byte): bv16
  {
    (a as bv16) + (value as bv16) + (carry as bv16)
  }

  /**
   * The setter sequence of `adc`: carry, zero, sign and overflow flags in
   * that order, then the accumulator.
   */
  function SetAdcResult(r: Registers, carry: bool, zero: bool, sign: bool, overflow: bool, a: Byte): Registers
  {
    r.WithFlag(Carry, carry).WithFlag(Zero, zero).WithFlag(Sign, sign).WithFlag(Overflow, overflow).(a := a)
  }

  /**
   * The register update of `adc`: the four flags are set from the 16-bit
   * sum, V from the accumulator before the update (the setters before it do
   * not change the accumulator), then the accumulator takes the low byte of
   * the sum. `AdcMatchesReference`, `AdcZeroFlag`, `AdcSignFlag`,
   * `AdcOverflowFlag` and `AdcKeeps` state the result in terms of integers
   * and signs.
   */
  function AddWithCarry(r: Registers, value: Byte): Registers
  {
    var result := Sum(r.a, value, ByteValue(r.Flag(Carry)));
    SetAdcResult(r,
      result & 0xFF00 > 0,
      result & 0x00FF == 0,
      result & 0x0080 > 0,
      ((result ^ (r.a as bv16)) & (result ^ (value as bv16)) & 0x0080) > 0,
      (result & 0xFF) as Byte)
  }

  /** A byte that is not negative when read as a signed number. */
  predicate NonNegative(b: Byte)
  {
    b < 0x80
  }

  /** The integer `adc` is meant to compute: accumulator plus operand plus the carry as 0 or 1. */
  function ReferenceSum(a: Byte, value: Byte, carry: bool): int
  {
    a as int + value as int + (if carry then 1 else 0)
  }

  /**
   * `adc` against integer arithmetic: the new accumulator is the reference
   * sum mod 256, and carry is set exactly when the sum exceeds 255.
   */
  lemma AdcMatchesReference(r: Registers, value: Byte)
    ensures AddWithCarry(r, value).a as int == ReferenceSum(r.a, value, r.Flag(Carry)) % 256
    ensures AddWithCarry(r, value).Flag(Carry) == (ReferenceSum(r.a, value, r.Flag(Carry)) > 255)
  {
    AdcSetsLow(r, value);
    AdcSetsCarry(r, value);
    SumLowArithmetic(r.a, value, r.Flag(Carry));
    SumCarryArithmetic(r.a, value, r.Flag(Carry));
  }

  /** The zero flag `adc` leaves says whether the new accumulator is zero. */
  lemma AdcZeroFlag(r: Registers, value: Byte)
    ensures AddWithCarry(r, value).Flag(Zero) == (AddWithCarry(r, value).a == 0)
  {
    AdcSetsLow(r, value);
    AdcSetsZero(r, value);
    SumBits(r.a, value, r.Flag(Carry));
  }

  /** The sign flag `adc` leaves is bit 7 of the new accumulator. */
  lemma AdcSignFlag(r: Registers, value: Byte)
    ensures AddWithCarry(r, value).Flag(Sign) == (AddWithCarry(r, value).a & 0x80 != 0)
  {
    AdcSetsLow(r, value);
    AdcSetsSign(r, value);
    SumBits(r.a, value, r.Flag(Carry));
  }

  /**
   * The overflow flag `adc` leaves is set exactly when accumulator and
   * operand have the same sign and the new accumulator has the other one.
   */
  lemma AdcOverflowFlag(r: Registers, value: Byte)
    ensures AddWithCarry(r, value).Flag(Overflow) ==
            (NonNegative(r.a) == NonNegative(value) && NonNegative(AddWithCarry(r, value).a) != NonNegative(r.a))
  {
    AdcSetsLow(r, value);
    AdcSetsOverflow(r, value);
    SumBits(r.a, value, r.Flag(Carry));
  }

  /** `adc` keeps the interrupt, decimal and break flags, bit 5 of P, and every register but P and A. */
  lemma AdcKeeps(r: Registers, value: Byte)
    ensures AddWithCarry(r, value).Flag(Interrupt) == r.Flag(Interrupt)
    ensures AddWithCarry(r, value).Flag(Decimal) == r.Flag(Decimal)
    ensures AddWithCarry(r, value).Flag(Break) == r.Flag(Break)
    ensures AddWithCarry(r, value).p & 0x20 == r.p & 0x20
    ensures AddWithCarry(r, value) == r.(p := AddWithCarry(r, value).p, a := AddWithCarry(r, value).a)
  {
    AdcKeepsBit5(r, value);
  }

  /** None of the four setters of `adc` writes bit 5 of P. */
  lemma AdcKeepsBit5(r: Registers, value: Byte)
    ensures AddWithCarry(r, value).p & 0x20 == r.p & 0x20
  {
    var result := Sum(r.a, value, ByteValue(r.Flag(Carry)));
    var carry := result & 0xFF00 > 0;
    var zero := result & 0x00FF == 0;
    var sign := result & 0x0080 > 0;
    var overflow := ((result ^ (r.a as bv16)) & (result ^ (value as bv16)) & 0x0080) > 0;
    var a := (result & 0xFF) as Byte;
    SettersKeepBit5(r, carry, zero, sign, overflow, a);
  }

  /** The setter sequence of `adc` keeps bit 5 of P whatever values it sets. */
  lemma SettersKeepBit5(r: Registers, carry: bool, zero: bool, sign: bool, overflow: bool, a: Byte)
    ensures SetAdcResult(r, carry, zero, sign, overflow, a).p & 0x20 == r.p & 0x20
  {
    var c := r.WithFlag(Carry, carry);
    var z := c.WithFlag(Zero, zero);
    var n := z.WithFlag(Sign, sign);
    SetterKeepsBit5(r, Carry, carry);
    SetterKeepsBit5(c, Zero, zero);
    SetterKeepsBit5(z, Sign, sign);
    SetterKeepsBit5(n, Overflow, overflow);
  }

  /** The accumulator `adc` leaves is the low byte of the 16-bit sum. */
  lemma AdcSetsLow(r: Registers, value: Byte)
    ensures AddWithCarry(r, value).a == (Sum(r.a, value, ByteValue(r.Flag(Carry))) & 0xFF) as Byte
  {
  }

  /** The carry `adc` leaves is the high byte of the 16-bit sum being non-zero. */
  lemma AdcSetsCarry(r: Registers, value: Byte)
    ensures AddWithCarry(r, value).Flag(Carry) == (Sum(r.a, value, ByteValue(r.Flag(Carry))) & 0xFF00 > 0)
  {
  }

  /** The zero flag `adc` leaves is the low byte of the 16-bit sum being zero. */
  lemma AdcSetsZero(r: Registers, value: Byte)
    ensures AddWithCarry(r, value).Flag(Zero) == (Sum(r.a, value, ByteValue(r.Flag(Carry))) & 0x00FF == 0)
  {
  }

  /** The sign flag `adc` leaves is bit 7 of the 16-bit sum. */
  lemma AdcSetsSign(r: Registers, value: Byte)
    ensures AddWithCarry(r, value).Flag(Sign) == (Sum(r.a, value, ByteValue(r.Flag(Carry))) & 0x0080 > 0)
  {
  }

  /** The overflow flag `adc` leaves is its overflow formula on the 16-bit sum. */
  lemma AdcSetsOverflow(r: Registers, value: Byte)
    ensures var result := Sum(r.a, value, ByteValue(r.Flag(Carry)));
            AddWithCarry(r, value).Flag(Overflow) == (((result ^ (r.a as bv16)) & (result ^ (value as bv16)) & 0x0080) > 0)
  {
  }

  /** The integer reading of the 16-bit sum's low byte. */
  lemma SumLowArithmetic(a: Byte, value: Byte, carry: bool)
    ensures ((Sum(a, value, ByteValue(carry)) & 0xFF) as Byte) as int == ReferenceSum(a, value, carry) % 256
  {
    var c := ByteValue(carry);
    CarryValue(carry, c);
    assert Sum(a, value, c) == (a as bv16) + (value as bv16) + (c as bv16);
    AdcArithmetic(a, value, c);
  }

  /** The integer reading of the 16-bit sum's carry out. */
  lemma SumCarryArithmetic(a: Byte, value: Byte, carry: bool)
    ensures (Sum(a, value, ByteValue(carry)) & 0xFF00 > 0) == (ReferenceSum(a, value, carry) > 255)
  {
    var c := ByteValue(carry);
    CarryValue(carry, c);
    assert Sum(a, value, c) == (a as bv16) + (value as bv16) + (c as bv16);
    AdcArithmetic(a, value, c);
  }

  /**
   * The bit reading of the 16-bit sum: its low byte is the wrapping byte
   * sum, bits 0 to 7 are zero exactly when that byte is, bit 7 is its sign
   * bit, and the overflow formula is the signed-overflow rule.
   */
  lemma SumBits(a: Byte, value: Byte, carry: bool)
    ensures (Sum(a, value, ByteValue(carry)) & 0x00FF == 0) == ((Sum(a, value, ByteValue(carry)) & 0xFF) as Byte == 0)
    ensures (Sum(a, value, ByteValue(carry)) & 0x0080 > 0) == ((Sum(a, value, ByteValue(carry)) & 0xFF) as Byte & 0x80 != 0)
    ensures var result := Sum(a, value, ByteValue(carry));
            (((result ^ (a as bv16)) & (result ^ (value as bv16)) & 0x0080) > 0) ==
            (NonNegative(a) == NonNegative(value) && NonNegative((result & 0xFF) as Byte) != NonNegative(a))
  {
  }

  /** The 0 or 1 that `ByteValue` gives, as an integer. */
  lemma CarryValue(b: bool, c: Byte)
    requires c == ByteValue(b)
    ensures c as int == if b then 1 else 0
  {
  }

  /**
   * The integer reading of the 16-bit sum of bytes a and v and a carry c of
   * 0 or 1: its low byte is the integer sum mod 256, and its high byte is
   * non-zero exactly when the integer sum exceeds 255.
   */
  lemma AdcArithmetic(a: Byte, v: Byte, c: Byte)
    requires c <= 1
    ensures (((a as bv16) + (v as bv16) + (c as bv16)) & 0xFF) as Byte as int == (a as int + v as int + c as int) % 256
    ensures ((((a as bv16) + (v as bv16) + (c as bv16)) & 0xFF00) > 0) == (a as int + v as int + c as int > 255)
  {
    var r := (a as bv16) + (v as bv16) + (c as bv16);
    var low := (r & 0xFF) as Byte;
    SplitSum(a, v, c);
    SumExact(a, v, c);
    if r & 0xFF00 > 0 {
      WidenPlusPage(low);
      assert r as int == low as int + 256;
    } else {
      Widen(low);
      assert r as int == low as int;
    }
    DivideByPage(a as int + v as int + c as int, low as int, r & 0xFF00 > 0);
  }

  /** The 16-bit sum of two bytes and a carry, split into its low byte and its page bit. */
  lemma SplitSum(a: Byte, v: Byte, c: Byte)
    requires c <= 1
    ensures var r := (a as bv16) + (v as bv16) + (c as bv16);
            r == ((r & 0xFF) as Byte) as bv16 + (if r & 0xFF00 > 0 then 0x100 else 0)
  {
  }

  /** The 16-bit sum of two bytes and a carry, as an integer. */
  lemma SumExact(a: Byte, v: Byte, c: Byte)
    requires c <= 1
    ensures ((a as bv16) + (v as bv16) + (c as bv16)) as int == a as int + v as int + c as int
  {
  }

  /** A byte widened to 16 bits has the same integer value. */
  lemma Widen(b: Byte)
    ensures (b as bv16) as int == b as int
  {
  }

  /** A byte widened to 16 bits, plus one page. */
  lemma WidenPlusPage(b: Byte)
    ensures ((b as bv16) + 0x100) as int == b as int + 256
  {
  }

  /** An integer written as a low part below 256 plus an optional 256. */
  lemma DivideByPage(n: int, low: int, page: bool)
    requires 0 <= low < 256
    requires n == low + (if page then 256 else 0)
    ensures low == n % 256
    ensures page == (n > 255)
  {
  }

  /** `adc`: the operand is read, then added to the accumulator with the carry. */
  function AddMemory(s: State, m: AddressingMode): (e: Effect)
    requires CanRead(s, m)
    ensures e.s.regs == AddWithCarry(s.regs.(pc := s.regs.pc + OperandBytes(m)), Peek(s.ram, OperandAddress(s, m)))
    ensures e.s.ram == s.ram && e.s.cycles == s.cycles + ReadBusCycles(m)
    ensures e.cycles == ReadCycles(m) + IndexBonus(s.regs, m)
  {
    var r := ReadOperand(s, m);
    Effect(r.s.(regs := AddWithCarry(r.s.regs, r.value)), ReadCycles(m) + r.bonus)
  }

  /**
   * `bit`: the accumulator is unchanged; V takes bit 6 of the operand and N
   * bit 7, and Z is set when the accumulator and the operand share a set
   * bit (the opposite of the hardware rule, which sets Z when they share none).
   */
  function BitTest(s: State, m: AddressingMode): (e: Effect)
    requires CanRead(s, m)
    ensures var v := Peek(s.ram, OperandAddress(s, m));
            && e.s.regs.Flag(Zero) == (s.regs.a & v != 0)
            && e.s.regs.Flag(Overflow) == (v & 0x40 != 0)
            && e.s.regs.Flag(Sign) == (v & 0x80 != 0)
    ensures forall f :: f != Zero && f != Overflow && f != Sign ==> e.s.regs.Flag(f) == s.regs.Flag(f)
    ensures e.s.regs.p & 0x20 == s.regs.p & 0x20
    ensures e.s.regs == s.regs.(p := e.s.regs.p, pc := s.regs.pc + OperandBytes(m))
    ensures e.s.ram == s.ram && e.s.cycles == s.cycles + ReadBusCycles(m)
    ensures e.cycles == ReadCycles(m)
  {
    var r := ReadOperand(s, m);
    Effect(r.s.(regs := BitFlags(r.s.regs, s.regs.a & r.value > 0, r.value & 0x40 > 0, r.value & 0x80 > 0)), ReadCycles(m))
  }

  /** The setter sequence of `bit`: zero, overflow and sign in that order, the rest of P kept. */
  function BitFlags(r: Registers, zero: bool, overflow: bool, sign: bool): (q: Registers)
    ensures q.Flag(Zero) == zero && q.Flag(Overflow) == overflow && q.Flag(Sign) == sign
    ensures forall f :: f != Zero && f != Overflow && f != Sign ==> q.Flag(f) == r.Flag(f)
    ensures q.p & 0x20 == r.p & 0x20
    ensures q == r.(p := q.p)
  {
    var withZero := r.WithFlag(Zero, zero);
    var withOverflow := withZero.WithFlag(Overflow, overflow);
    SetterKeepsOtherFlags(withZero, Overflow, Zero, overflow);
    SetterKeepsOtherFlags(withOverflow, Sign, Zero, sign);
    SetterKeepsOtherFlags(withOverflow, Sign, Overflow, sign);
    forall f | f != Zero && f != Overflow && f != Sign
      ensures withOverflow.WithFlag(Sign, sign).Flag(f) == r.Flag(f)
    {
      SetterKeepsOtherFlags(r, Zero, f, zero);
      SetterKeepsOtherFlags(withZero, Overflow, f, overflow);
      SetterKeepsOtherFlags(withOverflow, Sign, f, sign);
    }
    SetterKeepsBit5(r, Zero, zero);
    SetterKeepsBit5(withZero, Overflow, overflow);
    SetterKeepsBit5(withOverflow, Sign, sign);
    withOverflow.WithFlag(Sign, sign)
  }

  /** Hardware BIT would set Z exactly when this handler clears it. */
  lemma BitZeroIsInverted(s: State, m: AddressingMode)
    requires CanRead(s, m)
    ensures BitTest(s, m).s.regs.Flag(Zero) == !(s.regs.a & Peek(s.ram, OperandAddress(s, m)) == 0)
  {
  }

  // ---------------------------------------------------------------------
  // Register transfers and counting

  /**
   * `tax`, `tay`, `txa`, `tya`, `tsx`, `txs`: the source register is copied
   * into the target; Z and N are set from it unless the target is the stack
   * pointer. Two cycles are reported and none spent on the bus.
   */
  function Transfer(s: State, source: Register, target: Register): (e: Effect)
    ensures e.s.regs.Get(target) == s.regs.Get(source)
    ensures forall o :: o != target ==> e.s.regs.Get(o) == s.regs.Get(o)
    ensures target == SP ==> e.s.regs.p == s.regs.p
    ensures target != SP ==> e.s.regs == ZeroAndSign(s.regs.Set(target, s.regs.Get(source)), s.regs.Get(source))
    ensures e.s.regs.p & 0x20 == s.regs.p & 0x20
    ensures e.s.regs.pc == s.regs.pc && e.s.ram == s.ram && e.s.cycles == s.cycles
    ensures e.cycles == 2
  {
    var v := s.regs.Get(source);
    var q := s.regs.Set(target, v);
    Effect(s.(regs := if target == SP then q else ZeroAndSign(q, v)), 2)
  }

  /**
   * `inx`, `iny` (`&+ 1`) and `dex`, `dey` (`&- 1`): the register moves by
   * one modulo 256 and Z and N are set from the new value.
   */
  function Count(s: State, target: Register, up: bool): (e: Effect)
    requires IsDataRegister(target)
    ensures e.s.regs.Get(target) == if up then s.regs.Get(target) + 1 else s.regs.Get(target) - 1
    ensures e.s.regs == ZeroAndSign(s.regs.Set(target, e.s.regs.Get(target)), e.s.regs.Get(target))
    ensures e.s.regs.p & 0x20 == s.regs.p & 0x20
    ensures e.s.ram == s.ram && e.s.cycles == s.cycles
    ensures e.cycles == 2
  {
    var before := s.regs.Get(target);
    var v := if up then before + 1 else before - 1;
    Effect(s.(regs := ZeroAndSign(s.regs.Set(target, v), v)), 2)
  }

  /** The counted register, as an integer: one more or one less, modulo 256. */
  lemma CountWraps(s: State, target: Register, up: bool)
    requires IsDataRegister(target)
    ensures Count(s, target, up).s.regs.Get(target) as int == (s.regs.Get(target) as int + (if up then 1 else -1)) % 256
  {
    var before := s.regs.Get(target);
    WrapExact(before, up);
  }

  /** Byte increment and decrement, as integers modulo 256. */
  lemma WrapExact(b: Byte, up: bool)
    ensures up ==> (b + 1) as int == (b as int + 1) % 256
    ensures !up ==> (b - 1) as int == (b as int - 1) % 256
  {
    if b == 0xFF {
      assert b + 1 == 0;
    } else if up {
      assert (b + 1) as int == b as int + 1;
    }
    if b == 0 {
      assert b - 1 == 0xFF;
    } else if !up {
      DecrementExact(b);
    }
  }

  /** Counting up and then down leaves the register as it was, wrap-around included. */
  lemma CountUpThenDown(s: State, target: Register)
    requires IsDataRegister(target)
    ensures Count(Count(s, target, true).s, target, false).s.regs.Get(target) == s.regs.Get(target)
  {
  }

  // ---------------------------------------------------------------------
  // Stack instructions

  /** `pha` and `php`: the register byte is pushed; three cycles are reported. */
  function Push(s: State, value: Byte): (e: Effect)
    requires s.regs.sp >= 1
    ensures e.s == PushByte(s, value) && e.cycles == 3
  {
    Effect(PushByte(s, value), 3)
  }

  /** `pla`: the popped byte goes to the accumulator with Z and N set from it. */
  function PullAccumulator(s: State): (e: Effect)
    requires s.regs.sp <= 0xFE
    ensures e.s.regs.a == Peek(s.ram, SpAddress(s.regs))
    ensures e.s.regs == ZeroAndSign(s.regs.(a := e.s.regs.a, sp := s.regs.sp + 1), e.s.regs.a)
    ensures e.s.regs.p & 0x20 == s.regs.p & 0x20
    ensures e.s.ram == s.ram && e.s.cycles == s.cycles + 1
    ensures e.cycles == 4
  {
    var (t, v) := PopByte(s);
    Effect(t.(regs := ZeroAndSign(t.regs.(a := v), v)), 4)
  }

  /** `plp`: the popped byte replaces the whole status byte, bit 5 included. */
  function PullStatus(s: State): (e: Effect)
    requires s.regs.sp <= 0xFE
    ensures e.s.regs == s.regs.(p := Peek(s.ram, SpAddress(s.regs)), sp := s.regs.sp + 1)
    ensures e.s.ram == s.ram && e.s.cycles == s.cycles + 1
    ensures e.cycles == 4
  {
    var (t, v) := PopByte(s);
    Effect(t.(regs := t.regs.(p := v)), 4)
  }

  // ---------------------------------------------------------------------
  // Jumps and subroutines

  /**
   * `jmp`: absolute mode jumps to the operand word (three cycles); indirect
   * mode jumps to the word stored at the operand word (five cycles).
   */
  function Jump(s: State, m: AddressingMode): (e: Effect)
    requires m == Absolute || m == Indirect
    requires s.regs.pc < 0xFFFE && (m == Indirect ==> Word(s.ram, s.regs.pc) < 0xFFFF)
    ensures m == Absolute ==> e.s.regs.pc == Word(s.ram, s.regs.pc) && e.cycles == 3
    ensures m == Indirect ==> e.s.regs.pc == Word(s.ram, Word(s.ram, s.regs.pc)) && e.cycles == 5
    ensures e.s.regs == s.regs.(pc := e.s.regs.pc) && e.s.ram == s.ram
    ensures e.s.cycles == s.cycles + (if m == Absolute then 2 else 4)
  {
    var r := AbsoluteAddress(s);
    if m == Absolute then
      Effect(r.s.(regs := r.s.regs.(pc := r.address)), 3)
    else
      var (t, w) := ReadWord(r.s, r.address);
      Effect(t.(regs := t.regs.(pc := w)), 5)
  }

  /**
   * `jsr`: the target is fetched, the address of the operand's last byte
   * (the program counter after the fetch, minus one) is pushed, and the
   * program counter becomes the target. Six cycles are reported.
   */
  function JumpToSubroutine(s: State): (e: Effect)
    requires s.regs.pc < 0xFFFE && s.regs.sp >= 2
    ensures e.s.cycles == s.cycles + 4
    ensures e.cycles == 6
  {
    var r := AbsoluteAddress(s);
    var t := PushWord(r.s, r.s.regs.pc - 1);
    Effect(t.(regs := t.regs.(pc := r.address)), 6)
  }

  /** After `jsr` the program counter is the operand word and the stack pointer is two lower. */
  lemma JumpToSubroutineRegisters(s: State)
    requires s.regs.pc < 0xFFFE && s.regs.sp >= 2
    ensures JumpToSubroutine(s).s.regs == s.regs.(pc := Word(s.ram, s.regs.pc), sp := s.regs.sp - 2)
  {
  }

  /** `jsr` changes the RAM exactly as pushing the address of its operand's last byte does. */
  lemma JumpToSubroutinePushes(s: State)
    requires s.regs.pc < 0xFFFE && s.regs.sp >= 2
    ensures JumpToSubroutine(s).s.ram == PushWord(s, s.regs.pc + 1).ram
  {
    var r := AbsoluteAddress(s);
    PushWordRam(r.s, s, r.s.regs.pc - 1);
  }

  /** A word push changes the RAM the same way in two states with the same RAM and stack pointer. */
  lemma PushWordRam(s: State, t: State, value: Address)
    requires s.ram == t.ram && s.regs.sp == t.regs.sp && s.regs.sp >= 2
    ensures PushWord(s, value).ram == PushWord(t, value).ram
  {
  }

  /** `rts`: the popped word plus one becomes the program counter. Six cycles are reported. */
  function ReturnFromSubroutine(s: State): (e: Effect)
    requires s.regs.sp <= 0xFD && PopWord(s).1 < 0xFFFF
    ensures e.s.regs == s.regs.(pc := PopWord(s).1 + 1, sp := s.regs.sp + 2)
    ensures e.s.ram == s.ram && e.s.cycles == s.cycles + 2
    ensures e.cycles == 6
  {
    var (t, w) := PopWord(s);
    Effect(t.(regs := t.regs.(pc := w + 1)), 6)
  }

  /**
   * A `jsr` whose stack slots the bus routes, followed by an `rts`, resumes
   * at the byte after the `jsr` operand with the stack pointer restored.
   */
  lemma ReturnsAfterJumpToSubroutine(s: State)
    requires s.regs.pc < 0xFFFE && s.regs.sp >= 2
    ensures JumpToSubroutine(s).s.regs.sp <= 0xFD
    ensures PopWord(JumpToSubroutine(s).s).1 == s.regs.pc + 1
    ensures ReturnFromSubroutine(JumpToSubroutine(s).s).s.regs == s.regs.(pc := s.regs.pc + 2)
  {
    var t := JumpToSubroutine(s).s;
    var pushed := PushWord(s, s.regs.pc + 1);
    JumpToSubroutineRegisters(s);
    JumpToSubroutinePushes(s);
    PopWordAfterPushWord(s, s.regs.pc + 1);
    PopWordSameStack(t, pushed);
  }

  /** A word pop answers the same in two states with the same RAM and stack pointer. */
  lemma PopWordSameStack(s: State, t: State)
    requires s.ram == t.ram && s.regs.sp == t.regs.sp && s.regs.sp <= 0xFD
    ensures PopWord(s).1 == PopWord(t).1
  {
  }

  // ---------------------------------------------------------------------
  // Dispatch

  /** The Swift traps a handler can reach for the mode it is given. */
  predicate CanCall(s: State, i: Instruction, m: AddressingMode)
  {
    Acts(i, m) ==>
      && (IsRead(i) ==> CanRead(s, m))
      && (IsStore(i) ==> CanResolve(s, m))
      && (i == Jmp ==> s.regs.pc < 0xFFFE && (m == Indirect ==> Word(s.ram, s.regs.pc) < 0xFFFF))
      && (i == Jsr ==> s.regs.pc < 0xFFFE && s.regs.sp >= 2)
      && (i == Rts ==> s.regs.sp <= 0xFD && PopWord(s).1 < 0xFFFF)
      && ((i == Pha || i == Php) ==> s.regs.sp >= 1)
      && ((i == Pla || i == Plp) ==> s.regs.sp <= 0xFE)
  }

  /** The store instructions. */
  predicate IsStore(i: Instruction)
  {
    i == Sta || i == Stx || i == Sty
  }

  /** The instructions whose handler reads an operand: loads, logic, `bit` and `adc`. */
  predicate IsRead(i: Instruction)
  {
    i == Lda || i == Ldx || i == Ldy || i == And || i == Eor || i == Ora || i == Bit || i == Adc
  }

  /** The loads, and the register each one fills. */
  predicate IsLoad(i: Instruction)
  {
    i == Lda || i == Ldx || i == Ldy
  }

  function LoadTarget(i: Instruction): (r: Register)
    requires IsLoad(i)
    ensures IsDataRegister(r)
  {
    if i == Lda then A else if i == Ldx then X else Y
  }

  /** The logic instructions, and the operator each one applies. */
  predicate IsLogic(i: Instruction)
  {
    i == And || i == Eor || i == Ora
  }

  function LogicOf(i: Instruction): LogicOp
    requires IsLogic(i)
  {
    if i == And then AndOp else if i == Eor then XorOp else OrOp
  }

  /** The register each store writes to memory. */
  function StoreSource(i: Instruction): (r: Register)
    requires IsStore(i)
    ensures IsDataRegister(r)
  {
    if i == Sta then A else if i == Stx then X else Y
  }

  /** The transfers, with the register each one copies from and the one it copies to. */
  predicate IsTransfer(i: Instruction)
  {
    i == Tax || i == Tay || i == Txa || i == Tya || i == Tsx || i == Txs
  }

  function TransferSource(i: Instruction): Register
    requires IsTransfer(i)
  {
    if i == Tax || i == Tay then A
    else if i == Txa || i == Txs then X
    else if i == Tya then Y
    else SP
  }

  function TransferTarget(i: Instruction): Register
    requires IsTransfer(i)
  {
    if i == Tax || i == Tsx then X
    else if i == Tay then Y
    else if i == Txa || i == Tya then A
    else SP
  }

  /** The counting instructions, and the register each one moves. */
  predicate IsCount(i: Instruction)
  {
    i == Inx || i == Iny || i == Dex || i == Dey
  }

  function CountTarget(i: Instruction): (r: Register)
    requires IsCount(i)
    ensures IsDataRegister(r)
  {
    if i == Inx || i == Dex then X else Y
  }

  /**
   * `call`: the handler of the instruction. A handler that does not list
   * the mode, a stub and a printing handler all report zero and change
   * nothing. No handler but `plp`, which assigns the status byte whole,
   * writes bit 5 of it.
   */
  function Call(s: State, i: Instruction, m: AddressingMode): (e: Effect)
    requires CanCall(s, i, m)
    ensures !Acts(i, m) ==> e == Effect(s, 0)
    ensures s.cycles <= e.s.cycles
    ensures i != Plp ==> e.s.regs.p & 0x20 == s.regs.p & 0x20
  {
    if !Acts(i, m) then Effect(s, 0)
    else if IsRead(i) then ReadHandler(s, i, m)
    else if IsStore(i) then Store(s, StoreSource(i), m)
    else if IsTransfer(i) || IsCount(i) then RegisterHandler(s, i)
    else if IsStackOperation(i) then StackHandler(s, i)
    else JumpHandler(s, i, m)
  }

  /** The stack instructions. */
  predicate IsStackOperation(i: Instruction)
  {
    i == Pha || i == Php || i == Pla || i == Plp
  }

  /** The handlers that read an operand; none of them writes bit 5 of P. */
  function ReadHandler(s: State, i: Instruction, m: AddressingMode): (e: Effect)
    requires CanCall(s, i, m) && Acts(i, m) && IsRead(i)
    ensures s.cycles <= e.s.cycles
    ensures e.s.regs.p & 0x20 == s.regs.p & 0x20
  {
    if IsLoad(i) then
      LoadKeepsBit5(s, LoadTarget(i), m);
      Load(s, LoadTarget(i), m)
    else if IsLogic(i) then
      LogicKeepsBit5(s, LogicOf(i), m);
      Logic(s, LogicOf(i), m)
    else if i == Bit then BitTest(s, m)
    else
      AdcKeepsBit5(s.regs.(pc := s.regs.pc + OperandBytes(m)), Peek(s.ram, OperandAddress(s, m)));
      AddMemory(s, m)
  }

  /** The handlers of transfers and counting; none of them writes bit 5 of P. */
  function RegisterHandler(s: State, i: Instruction): (e: Effect)
    requires IsTransfer(i) || IsCount(i)
    ensures s.cycles <= e.s.cycles
    ensures e.s.regs.p & 0x20 == s.regs.p & 0x20
  {
    if IsTransfer(i) then Transfer(s, TransferSource(i), TransferTarget(i))
    else Count(s, CountTarget(i), i == Inx || i == Iny)
  }

  /** The handlers of the stack instructions; only `plp` writes bit 5 of P. */
  function StackHandler(s: State, i: Instruction): (e: Effect)
    requires IsStackOperation(i)
    requires (i == Pha || i == Php) ==> s.regs.sp >= 1
    requires (i == Pla || i == Plp) ==> s.regs.sp <= 0xFE
    ensures s.cycles <= e.s.cycles
    ensures i != Plp ==> e.s.regs.p & 0x20 == s.regs.p & 0x20
  {
    if i == Pha then Push(s, s.regs.a)
    else if i == Php then Push(s, s.regs.p)
    else if i == Pla then PullAccumulator(s)
    else PullStatus(s)
  }

  /** The handlers of the jumps, and the no-op every other acting instruction would fall to. */
  function JumpHandler(s: State, i: Instruction, m: AddressingMode): (e: Effect)
    requires CanCall(s, i, m) && Acts(i, m)
    ensures s.cycles <= e.s.cycles
    ensures e.s.regs.p & 0x20 == s.regs.p & 0x20
  {
    if i == Jmp then Jump(s, m)
    else if i == Jsr then
      JumpToSubroutineRegisters(s);
      JumpToSubroutine(s)
    else if i == Rts then ReturnFromSubroutine(s)
    else Effect(s, 0)
  }

  /** A load writes only Z and N, so bit 5 of P is kept. */
  lemma LoadKeepsBit5(s: State, target: Register, m: AddressingMode)
    requires IsDataRegister(target) && CanRead(s, m)
    ensures Load(s, target, m).s.regs.p & 0x20 == s.regs.p & 0x20
  {
    var r := ReadOperand(s, m);
    var q := r.s.regs.Set(target, r.value);
    assert Load(s, target, m).s.regs == ZeroAndSign(q, r.value);
  }

  /** A logic instruction writes only Z and N, so bit 5 of P is kept. */
  lemma LogicKeepsBit5(s: State, op: LogicOp, m: AddressingMode)
    requires CanRead(s, m)
    ensures Logic(s, op, m).s.regs.p & 0x20 == s.regs.p & 0x20
  {
    var r := ReadOperand(s, m);
    var a := Apply(op, s.regs.a, r.value);
    assert Logic(s, op, m).s.regs == ZeroAndSign(r.s.regs.(a := a), a);
  }

  /** Stubs and printing handlers do nothing whatever the mode. */
  lemma StubsDoNothing(s: State, i: Instruction, m: AddressingMode)
    requires IsStub(i) || OnlyPrints(i)
    ensures CanCall(s, i, m) && Call(s, i, m) == Effect(s, 0)
  {
    StubsDoNotAct(i, m);
  }

  /** No stub and no printing handler acts in any mode. */
  lemma StubsDoNotAct(i: Instruction, m: AddressingMode)
    requires IsStub(i) || OnlyPrints(i)
    ensures !Acts(i, m)
  {
    if OnlyPrints(i) {
      assert i == Invalid || i == Brk || i == Nop;
    }
  }
}
