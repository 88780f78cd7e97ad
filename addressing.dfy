/**
 * The 6502 addressing modes and the resolvers that fetch an instruction's
 * operand bytes and compute its effective address. Three resolvers also
 * take a cycle counter and add one to it when they decide a page was
 * crossed. They decide this by testing whether the effective address minus
 * the base is at least 0xFF, which holds exactly when the index register is
 * 0xFF and does not look at the page at all.
 */
module Addressing {
  import opened Global
  import opened Registers
  import opened NesBus
  import opened Machine

  datatype AddressingMode =
    | Implicit
    | Accumulator
    | Immediate
    | ZeroPage
    | ZeroPageX
    | ZeroPageY
    | Absolute
    | AbsoluteX
    | AbsoluteY
    | Relative
    | Indirect
    | IndexedIndirect
    | IndirectIndexed

  /** The state after the operand bytes were fetched, the effective address, and the extra cycle, if any. */
  datatype Resolved = Resolved(s: State, address: Address, bonus: nat)

  /** The modes whose operand is at a memory address the CPU computes. */
  predicate IsMemoryMode(m: AddressingMode)
  {
    match m
    case ZeroPage | ZeroPageX | ZeroPageY | Absolute | AbsoluteX | AbsoluteY | IndexedIndirect | IndirectIndexed => true
    case _ => false
  }

  /** Operand bytes following the opcode for each memory mode. */
  function OperandBytes(m: AddressingMode): Address
  {
    match m
    case Absolute | AbsoluteX | AbsoluteY => 2
    case _ => 1
  }

  /** Bus cycles the resolver spends: one per operand byte, two more to read an indirect pointer. */
  function ResolveCycles(m: AddressingMode): nat
  {
    match m
    case IndexedIndirect | IndirectIndexed => 3
    case _ => OperandBytes(m) as nat
  }

  /** The mode's resolver only moves the program counter past the operand and counts the bytes it read. */
  predicate OnlyOperandFetched(s: State, r: Resolved, m: AddressingMode)
    requires s.regs.pc as int + OperandBytes(m) as int <= 0xFFFF
  {
    r.s == s.(regs := s.regs.(pc := s.regs.pc + OperandBytes(m)), cycles := s.cycles + ResolveCycles(m))
  }

  /** `fetchZeroPageAddress`: the fetched byte is the address, inside page 0x00. */
  function ZeroPageAddress(s: State): (r: Resolved)
    requires s.regs.pc < 0xFFFF
    ensures r.address as int == Peek(s.ram, s.regs.pc) as int && r.address < 0x100
    ensures OnlyOperandFetched(s, r, ZeroPage) && r.bonus == 0
  {
    var (t, b) := Fetch(s);
    Resolved(t, b as Address, 0)
  }

  /** `Address(b &+ index)`: a byte sum that wraps, so it always lands in page 0x00. */
  function InPageZero(b: Byte, index: Byte): (address: Address)
    ensures address < 0x100
    ensures address as bv16 == ((b as bv16) + (index as bv16)) & 0xFF
  {
    WordExact(((b as bv16) + (index as bv16)) & 0xFF);
    (b + index) as Address
  }

  /**
   * `fetchZeroPageXAddress`: the fetched byte plus x, added on bytes with
   * `&+` so it wraps around inside page 0x00.
   */
  function ZeroPageXAddress(s: State): (r: Resolved)
    requires s.regs.pc < 0xFFFF
    ensures r.address == InPageZero(Peek(s.ram, s.regs.pc), s.regs.x)
    ensures OnlyOperandFetched(s, r, ZeroPageX) && r.bonus == 0
  {
    var (t, b) := Fetch(s);
    Resolved(t, InPageZero(b, t.regs.x), 0)
  }

  /** The wrap of zero page X: byte 0x80 with x = 0xFF is address 0x7F. */
  lemma ZeroPageXWraps(s: State)
    requires s.regs.pc < 0xFFFF && Peek(s.ram, s.regs.pc) == 0x80 && s.regs.x == 0xFF
    ensures ZeroPageXAddress(s).address == 0x7F
  {
  }

  /** `fetchZeroPageYAddress`: as zero page X, with y. */
  function ZeroPageYAddress(s: State): (r: Resolved)
    requires s.regs.pc < 0xFFFF
    ensures r.address == InPageZero(Peek(s.ram, s.regs.pc), s.regs.y)
    ensures OnlyOperandFetched(s, r, ZeroPageY) && r.bonus == 0
  {
    var (t, b) := Fetch(s);
    Resolved(t, InPageZero(b, t.regs.y), 0)
  }

  /** `fetchAbsoluteAddress`: the little-endian word after the opcode. */
  function AbsoluteAddress(s: State): (r: Resolved)
    requires s.regs.pc < 0xFFFE
    ensures r.address == Word(s.ram, s.regs.pc)
    ensures OnlyOperandFetched(s, r, Absolute) && r.bonus == 0
  {
    var (t, w) := FetchWord(s);
    Resolved(t, w, 0)
  }

  /**
   * The bonus rule of the counting resolvers: one extra cycle when
   * `address - base >= 0xFF`. The subtraction stops the program if the
   * address is below the base.
   */
  function Bonus(base: Address, address: Address): nat
    requires base <= address
  {
    if address - base >= 0xFF then 1 else 0
  }

  /** An index can be added to a base address without leaving 16 bits (Swift's `+` stops otherwise). */
  predicate Indexable(base: Address, index: Byte)
  {
    base as int + index as int <= 0xFFFF
  }

  /**
   * Without overflow the bonus rule gives its cycle exactly for index 0xFF,
   * whatever the base and whether or not the page changes.
   */
  lemma BonusRule(base: Address, index: Byte)
    requires Indexable(base, index)
    ensures Bonus(base, base + index as Address) == if index == 0xFF then 1 else 0
  {
  }

  /** A page crossing, the event the comment on the bonus rule names. */
  predicate CrossesPage(base: Address, address: Address)
  {
    base as int / 0x100 != address as int / 0x100
  }

  /** The bonus rule and page crossing disagree both ways. */
  lemma BonusIsNotPageCrossing()
    ensures CrossesPage(0x00FF, 0x00FF + 0x01) && Bonus(0x00FF, 0x00FF + 0x01) == 0
    ensures !CrossesPage(0x0000, 0x0000 + 0xFF) && Bonus(0x0000, 0x0000 + 0xFF) == 1
  {
  }

  /**
   * `fetchAbsoluteXAddress(cycles:)` and `fetchAbsoluteYAddress(cycles:)`:
   * the word after the opcode plus an index register, with the bonus rule.
   */
  function AbsoluteIndexed(s: State, index: Byte): (r: Resolved)
    requires s.regs.pc < 0xFFFE && Indexable(Word(s.ram, s.regs.pc), index)
    ensures r.address as int == Word(s.ram, s.regs.pc) as int + index as int
    ensures r.bonus == if index == 0xFF then 1 else 0
    ensures r.s == s.(regs := s.regs.(pc := s.regs.pc + 2), cycles := s.cycles + 2)
  {
    var (t, base) := FetchWord(s);
    var address := base + index as Address;
    Resolved(t, address, Bonus(base, address))
  }

  /** `fetchAbsoluteXAddress(cycles:)`: absolute indexed by x. */
  function AbsoluteXAddress(s: State): (r: Resolved)
    requires s.regs.pc < 0xFFFE && Indexable(Word(s.ram, s.regs.pc), s.regs.x)
    ensures r.address as int == Word(s.ram, s.regs.pc) as int + s.regs.x as int
    ensures r.bonus == if s.regs.x == 0xFF then 1 else 0
    ensures OnlyOperandFetched(s, r, AbsoluteX)
  {
    AbsoluteIndexed(s, s.regs.x)
  }

  /** `fetchAbsoluteYAddress(cycles:)`: absolute indexed by y. */
  function AbsoluteYAddress(s: State): (r: Resolved)
    requires s.regs.pc < 0xFFFE && Indexable(Word(s.ram, s.regs.pc), s.regs.y)
    ensures r.address as int == Word(s.ram, s.regs.pc) as int + s.regs.y as int
    ensures r.bonus == if s.regs.y == 0xFF then 1 else 0
    ensures OnlyOperandFetched(s, r, AbsoluteY)
  {
    AbsoluteIndexed(s, s.regs.y)
  }

  /**
   * `fetchIndexedIndirectAddress`: the word stored at the fetched byte plus
   * x (wrapped inside page 0x00, as for zero page X). The pointer's second
   * byte is read at pointer + 1 on 16 bits, so pointer 0xFF takes its high
   * byte from 0x0100.
   */
  function IndexedIndirectAddress(s: State): (r: Resolved)
    requires s.regs.pc < 0xFFFF
    ensures r.address == Word(s.ram, InPageZero(Peek(s.ram, s.regs.pc), s.regs.x))
    ensures OnlyOperandFetched(s, r, IndexedIndirect) && r.bonus == 0
  {
    var (t, b) := Fetch(s);
    var pointer := InPageZero(b, t.regs.x);
    var (u, address) := ReadWord(t, pointer);
    Resolved(u, address, 0)
  }

  /** The missing zero-page wrap: pointer 0xFF reads its high byte at 0x0100, not at 0x0000. */
  lemma IndexedIndirectPointerFF(s: State)
    requires s.regs.pc < 0xFFFF && Peek(s.ram, s.regs.pc) + s.regs.x == 0xFF
    ensures IndexedIndirectAddress(s).address == Combine(Peek(s.ram, 0x00FF), Peek(s.ram, 0x0100))
  {
  }

  /**
   * `fetchIndirectIndexedAddress(cycles:)`: the word stored at the fetched
   * zero-page byte, plus y, with the bonus rule.
   */
  function IndirectIndexedAddress(s: State): (r: Resolved)
    requires s.regs.pc < 0xFFFF
    requires Indexable(Word(s.ram, Peek(s.ram, s.regs.pc) as Address), s.regs.y)
    ensures r.address as int == Word(s.ram, Peek(s.ram, s.regs.pc) as Address) as int + s.regs.y as int
    ensures r.bonus == if s.regs.y == 0xFF then 1 else 0
    ensures OnlyOperandFetched(s, r, IndirectIndexed)
  {
    var (t, b) := Fetch(s);
    var (u, base) := ReadWord(t, b as Address);
    var address := base + u.regs.y as Address;
    Resolved(u, address, Bonus(base, address))
  }

  /** The index register a mode adds: x for the X modes and indexed indirect, y for the others. */
  function Index(r: Registers, m: AddressingMode): Byte
  {
    match m
    case ZeroPageX | AbsoluteX | IndexedIndirect => r.x
    case _ => r.y
  }

  /** The bonus the counting resolvers report: one cycle when their index register is 0xFF. */
  function IndexBonus(r: Registers, m: AddressingMode): nat
  {
    match m
    case AbsoluteX => if r.x == 0xFF then 1 else 0
    case AbsoluteY | IndirectIndexed => if r.y == 0xFF then 1 else 0
    case _ => 0
  }

  /** No resolver stops the program: the program counter has room for the operand and no index overflows. */
  predicate CanResolve(s: State, m: AddressingMode)
    ensures CanResolve(s, m) ==> IsMemoryMode(m)
  {
    match m
    case ZeroPage | ZeroPageX | ZeroPageY | IndexedIndirect => s.regs.pc < 0xFFFF
    case Absolute => s.regs.pc < 0xFFFE
    case AbsoluteX => s.regs.pc < 0xFFFE && Indexable(Word(s.ram, s.regs.pc), s.regs.x)
    case AbsoluteY => s.regs.pc < 0xFFFE && Indexable(Word(s.ram, s.regs.pc), s.regs.y)
    case IndirectIndexed =>
      s.regs.pc < 0xFFFF && Indexable(Word(s.ram, Peek(s.ram, s.regs.pc) as Address), s.regs.y)
    case _ => false
  }

  /**
   * The resolver each memory mode uses. Every one moves the program counter
   * past its operand, spends one cycle per byte it reads, and changes
   * nothing else; only the counting modes add a cycle, and only when their
   * index register is 0xFF.
   */
  function Resolve(s: State, m: AddressingMode): (r: Resolved)
    requires CanResolve(s, m)
    ensures OnlyOperandFetched(s, r, m)
  {
    match m
    case ZeroPage => ZeroPageAddress(s)
    case ZeroPageX => ZeroPageXAddress(s)
    case ZeroPageY => ZeroPageYAddress(s)
    case Absolute => AbsoluteAddress(s)
    case AbsoluteX => AbsoluteXAddress(s)
    case AbsoluteY => AbsoluteYAddress(s)
    case IndexedIndirect => IndexedIndirectAddress(s)
    case IndirectIndexed => IndirectIndexedAddress(s)
  }

  /**
   * Only the counting modes add a cycle, and only when their index register
   * is 0xFF; the zero-page modes stay inside page 0x00.
   */
  lemma ResolveBonus(s: State, m: AddressingMode)
    requires CanResolve(s, m)
    ensures Resolve(s, m).bonus == IndexBonus(s.regs, m)
    ensures m == ZeroPage || m == ZeroPageX || m == ZeroPageY ==> Resolve(s, m).address < 0x100
  {
    match m
    case ZeroPage =>
    case ZeroPageX =>
    case ZeroPageY =>
    case Absolute =>
    case AbsoluteX =>
    case AbsoluteY =>
    case IndexedIndirect =>
    case IndirectIndexed =>
  }
}
