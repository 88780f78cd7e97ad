/**
 * The 6502 register file: the status byte `p`, the accumulator, the two
 * index registers, the program counter and the stack pointer. It is a value
 * (a Swift struct); the CPU object holds one and replaces it on every update.
 */
module Registers {
  import opened Global

  /** The seven status flags that have an accessor. Bit 5 of `p` has none. */
  datatype StatusFlag = Carry | Zero | Interrupt | Decimal | Break | Overflow | Sign

  /** Bit position of each flag in `p`. Break sits at bit 4; nothing names bit 5. */
  function Bit(f: StatusFlag): (k: nat)
    ensures k < 8 && k != 5
  {
    match f
    case Carry => 0
    case Zero => 1
    case Interrupt => 2
    case Decimal => 3
    case Break => 4
    case Overflow => 6
    case Sign => 7
  }

  /** The mask each getter applies to `p` before shifting; `MaskIsBit` ties it to `Bit`. */
  function Mask(f: StatusFlag): Byte
  {
    match f
    case Carry => 0x01
    case Zero => 0x02
    case Interrupt => 0x04
    case Decimal => 0x08
    case Break => 0x10
    case Overflow => 0x40
    case Sign => 0x80
  }

  /** The registers an instruction can move a byte into or out of. */
  datatype Register = A | X | Y | SP

  datatype Registers = Registers(p: Byte, a: Byte, x: Byte, y: Byte, pc: Address, sp: Byte)
  {
    /**
     * The flag getters: each masks its own bit of `p`, shifts it down and
     * compares with 1. `FlagIsMaskedBit` restates this as a mask test.
     */
    predicate Flag(f: StatusFlag)
    {
      match f
      case Carry => p & 0x01 == 1
      case Zero => (p & 0x02) >> 1 == 1
      case Interrupt => (p & 0x04) >> 2 == 1
      case Decimal => (p & 0x08) >> 3 == 1
      case Break => (p & 0x10) >> 4 == 1
      case Overflow => (p & 0x40) >> 6 == 1
      case Sign => (p & 0x80) >> 7 == 1
    }

    /**
     * The flag setters: each clears its bit and ors in the new value shifted
     * into place. The flag reads back as set and no other register changes;
     * `SetterKeepsOtherFlags` and `SetterKeepsBit5` show the rest of `p` is kept.
     */
    function WithFlag(f: StatusFlag, value: bool): (r: Registers)
      ensures r.Flag(f) == value
      ensures r == this.(p := r.p)
    {
      var v := ByteValue(value);
      match f
      case Carry => this.(p := (p & 0xFE) | v)
      case Zero => this.(p := (p & 0xFD) | (v << 1))
      case Interrupt => this.(p := (p & 0xFB) | (v << 2))
      case Decimal => this.(p := (p & 0xF7) | (v << 3))
      case Break => this.(p := (p & 0xEF) | (v << 4))
      case Overflow => this.(p := (p & 0xBF) | (v << 6))
      case Sign => this.(p := (p & 0x7F) | (v << 7))
    }

    /** The value of a register selected by name. */
    function Get(r: Register): Byte
    {
      match r
      case A => a
      case X => x
      case Y => y
      case SP => sp
    }

    /** Replaces one register; this one reads back and all others are kept. */
    function Set(r: Register, value: Byte): (q: Registers)
      ensures q.Get(r) == value
      ensures forall o :: o != r ==> q.Get(o) == Get(o)
      ensures q.p == p && q.pc == pc
    {
      match r
      case A => this.(a := value)
      case X => this.(x := value)
      case Y => this.(y := value)
      case SP => this.(sp := value)
    }

    /** `reset()`: the same literals the initializer writes. */
    function Reset(): (r: Registers)
      ensures r == Init()
    {
      Registers(0x20, 0, 0, 0, 0, 0xFF)
    }
  }

  /**
   * The initializer: only bit 5 of `p` set, so every named flag reads false;
   * a, x, y and pc are zero and the stack pointer starts at the top, 0xFF.
   */
  function Init(): (r: Registers)
    ensures forall f :: !r.Flag(f)
    ensures r.p & 0x20 != 0
    ensures r.a == 0 && r.x == 0 && r.y == 0 && r.pc == 0 && r.sp == 0xFF
  {
    Registers(0x20, 0, 0, 0, 0, 0xFF)
  }

  /** Each mask has exactly the flag's bit set. */
  lemma MaskIsBit(f: StatusFlag)
    ensures Mask(f) == 1 << Bit(f)
  {
    match f
    case Carry =>
    case Zero =>
    case Interrupt =>
    case Decimal =>
    case Break =>
    case Overflow =>
    case Sign =>
  }

  /** A flag is set exactly when its mask shares a bit with `p`. */
  lemma FlagIsMaskedBit(r: Registers, f: StatusFlag)
    ensures r.Flag(f) <==> r.p & Mask(f) != 0
  {
    match f
    case Carry =>
    case Zero =>
    case Interrupt =>
    case Decimal =>
    case Break =>
    case Overflow =>
    case Sign =>
  }

  /** Reset is independent of what the registers held: resetting twice is resetting once. */
  lemma ResetIdempotent(r: Registers)
    ensures r.Reset().Reset() == r.Reset()
    ensures r.Reset() == Init()
  {
  }

  /** A flag setter leaves every other flag as it was. */
  lemma SetterKeepsOtherFlags(r: Registers, f: StatusFlag, g: StatusFlag, value: bool)
    requires g != f
    ensures r.WithFlag(f, value).Flag(g) == r.Flag(g)
  {
    match f
    case Carry =>
    case Zero =>
    case Interrupt =>
    case Decimal =>
    case Break =>
    case Overflow =>
    case Sign =>
  }

  /** No flag setter ever touches bit 5, so it stays as the initializer left it. */
  lemma SetterKeepsBit5(r: Registers, f: StatusFlag, value: bool)
    ensures r.WithFlag(f, value).p & 0x20 == r.p & 0x20
  {
    assert Mask(f) & 0x20 == 0;
  }
}
