/**
 * The opcode table: one entry for each of the 256 byte values, in byte
 * order, naming the instruction and the addressing mode (implicit when the
 * entry gives none). `Lookup` is the search the fetch-decode loop runs for
 * an opcode byte, and `OpcodeByte` the reverse search for the first entry
 * with a given instruction and mode. `Encode` is an independent statement
 * of the same table, keyed by instruction and mode.
 */
module Opcodes {
  import opened Global
  import opened Addressing
  import opened Instructions

  datatype Option<T> = None | Some(value: T)

  /** An entry of the table: the opcode byte, its instruction and its addressing mode. */
  datatype Opcode = Opcode(value: Byte, instruction: Instruction, mode: AddressingMode)


  /** The entries 0x00 to 0x0F. */
  function Row0(b: Byte): (o: Opcode)
    requires b <= 0x0F
    ensures o.value == b
  {
    match b
    case 0x00 => Opcode(0x00, Brk, Implicit)
    case 0x01 => Opcode(0x01, Ora, IndexedIndirect)
    case 0x02 => Opcode(0x02, Invalid, Implicit)
    case 0x03 => Opcode(0x03, Invalid, Implicit)
    case 0x04 => Opcode(0x04, Nop, ZeroPage)
    case 0x05 => Opcode(0x05, Ora, ZeroPage)
    case 0x06 => Opcode(0x06, Asl, ZeroPage)
    case 0x07 => Opcode(0x07, Invalid, Implicit)
    case 0x08 => Opcode(0x08, Php, Implicit)
    case 0x09 => Opcode(0x09, Ora, Immediate)
    case 0x0A => Opcode(0x0A, Asl, Accumulator)
    case 0x0B => Opcode(0x0B, Invalid, Implicit)
    case 0x0C => Opcode(0x0C, Invalid, Implicit)
    case 0x0D => Opcode(0x0D, Ora, Absolute)
    case 0x0E => Opcode(0x0E, Asl, Absolute)
    case _ => Opcode(0x0F, Invalid, Implicit)
  }

  /** The entries 0x10 to 0x1F. */
  function Row1(b: Byte): (o: Opcode)
    requires 0x10 <= b <= 0x1F
    ensures o.value == b
  {
    match b
    case 0x10 => Opcode(0x10, Bpl, Relative)
    case 0x11 => Opcode(0x11, Ora, IndirectIndexed)
    case 0x12 => Opcode(0x12, Invalid, Implicit)
    case 0x13 => Opcode(0x13, Invalid, Implicit)
    case 0x14 => Opcode(0x14, Invalid, Implicit)
    case 0x15 => Opcode(0x15, Ora, ZeroPageX)
    case 0x16 => Opcode(0x16, Asl, ZeroPageX)
    case 0x17 => Opcode(0x17, Invalid, Implicit)
    case 0x18 => Opcode(0x18, Clc, Implicit)
    case 0x19 => Opcode(0x19, Ora, AbsoluteY)
    case 0x1A => Opcode(0x1A, Invalid, Implicit)
    case 0x1B => Opcode(0x1B, Invalid, Implicit)
    case 0x1C => Opcode(0x1C, Invalid, Implicit)
    case 0x1D => Opcode(0x1D, Ora, AbsoluteX)
    case 0x1E => Opcode(0x1E, Asl, AbsoluteX)
    case _ => Opcode(0x1F, Invalid, Implicit)
  }

  /** The entries 0x20 to 0x2F. */
  function Row2(b: Byte): (o: Opcode)
    requires 0x20 <= b <= 0x2F
    ensures o.value == b
  {
    match b
    case 0x20 => Opcode(0x20, Jsr, Absolute)
    case 0x21 => Opcode(0x21, And, IndexedIndirect)
    case 0x22 => Opcode(0x22, Invalid, Implicit)
    case 0x23 => Opcode(0x23, Invalid, Implicit)
    case 0x24 => Opcode(0x24, Bit, ZeroPage)
    case 0x25 => Opcode(0x25, And, ZeroPage)
    case 0x26 => Opcode(0x26, Rol, ZeroPage)
    case 0x27 => Opcode(0x27, Invalid, Implicit)
    case 0x28 => Opcode(0x28, Plp, Implicit)
    case 0x29 => Opcode(0x29, And, Immediate)
    case 0x2A => Opcode(0x2A, Rol, Accumulator)
    case 0x2B => Opcode(0x2B, Invalid, Implicit)
    case 0x2C => Opcode(0x2C, Bit, Absolute)
    case 0x2D => Opcode(0x2D, And, Absolute)
    case 0x2E => Opcode(0x2E, Rol, Absolute)
    case _ => Opcode(0x2F, Invalid, Implicit)
  }

  /** The entries 0x30 to 0x3F. */
  function Row3(b: Byte): (o: Opcode)
    requires 0x30 <= b <= 0x3F
    ensures o.value == b
  {
    match b
    case 0x30 => Opcode(0x30, Bmi, Relative)
    case 0x31 => Opcode(0x31, And, IndirectIndexed)
    case 0x32 => Opcode(0x32, Invalid, Implicit)
    case 0x33 => Opcode(0x33, Invalid, Implicit)
    case 0x34 => Opcode(0x34, Invalid, Implicit)
    case 0x35 => Opcode(0x35, And, ZeroPageX)
    case 0x36 => Opcode(0x36, Rol, ZeroPageX)
    case 0x37 => Opcode(0x37, Invalid, Implicit)
    case 0x38 => Opcode(0x38, Sec, Implicit)
    case 0x39 => Opcode(0x39, And, AbsoluteY)
    case 0x3A => Opcode(0x3A, Invalid, Implicit)
    case 0x3B => Opcode(0x3B, Invalid, Implicit)
    case 0x3C => Opcode(0x3C, Invalid, Implicit)
    case 0x3D => Opcode(0x3D, And, AbsoluteX)
    case 0x3E => Opcode(0x3E, Rol, AbsoluteX)
    case _ => Opcode(0x3F, Invalid, Implicit)
  }

  /** The entries 0x40 to 0x4F. */
  function Row4(b: Byte): (o: Opcode)
    requires 0x40 <= b <= 0x4F
    ensures o.value == b
  {
    match b
    case 0x40 => Opcode(0x40, Rti, Implicit)
    case 0x41 => Opcode(0x41, Eor, IndexedIndirect)
    case 0x42 => Opcode(0x42, Invalid, Implicit)
    case 0x43 => Opcode(0x43, Invalid, Implicit)
    case 0x44 => Opcode(0x44, Invalid, Implicit)
    case 0x45 => Opcode(0x45, Eor, ZeroPage)
    case 0x46 => Opcode(0x46, Lsr, ZeroPage)
    case 0x47 => Opcode(0x47, Invalid, Implicit)
    case 0x48 => Opcode(0x48, Pha, Implicit)
    case 0x49 => Opcode(0x49, Eor, Immediate)
    case 0x4A => Opcode(0x4A, Lsr, Accumulator)
    case 0x4B => Opcode(0x4B, Invalid, Implicit)
    case 0x4C => Opcode(0x4C, Jmp, Absolute)
    case 0x4D => Opcode(0x4D, Eor, Absolute)
    case 0x4E => Opcode(0x4E, Lsr, Absolute)
    case _ => Opcode(0x4F, Invalid, Implicit)
  }

  /** The entries 0x50 to 0x5F. */
  function Row5(b: Byte): (o: Opcode)
    requires 0x50 <= b <= 0x5F
    ensures o.value == b
  {
    match b
    case 0x50 => Opcode(0x50, Bvc, Relative)
    case 0x51 => Opcode(0x51, Eor, IndirectIndexed)
    case 0x52 => Opcode(0x52, Invalid, Implicit)
    case 0x53 => Opcode(0x53, Invalid, Implicit)
    case 0x54 => Opcode(0x54, Invalid, Implicit)
    case 0x55 => Opcode(0x55, Eor, ZeroPageX)
    case 0x56 => Opcode(0x56, Lsr, ZeroPageX)
    case 0x57 => Opcode(0x57, Invalid, Implicit)
    case 0x58 => Opcode(0x58, Cli, Implicit)
    case 0x59 => Opcode(0x59, Eor, AbsoluteY)
    case 0x5A => Opcode(0x5A, Invalid, Implicit)
    case 0x5B => Opcode(0x5B, Invalid, Implicit)
    case 0x5C => Opcode(0x5C, Invalid, Implicit)
    case 0x5D => Opcode(0x5D, Eor, AbsoluteX)
    case 0x5E => Opcode(0x5E, Lsr, AbsoluteX)
    case _ => Opcode(0x5F, Invalid, Implicit)
  }

  /** The entries 0x60 to 0x6F. */
  function Row6(b: Byte): (o: Opcode)
    requires 0x60 <= b <= 0x6F
    ensures o.value == b
  {
    match b
    case 0x60 => Opcode(0x60, Rts, Implicit)
    case 0x61 => Opcode(0x61, Adc, IndexedIndirect)
    case 0x62 => Opcode(0x62, Invalid, Implicit)
    case 0x63 => Opcode(0x63, Invalid, Implicit)
    case 0x64 => Opcode(0x64, Invalid, Implicit)
    case 0x65 => Opcode(0x65, Adc, ZeroPage)
    case 0x66 => Opcode(0x66, Ror, ZeroPage)
    case 0x67 => Opcode(0x67, Invalid, Implicit)
    case 0x68 => Opcode(0x68, Pla, Implicit)
    case 0x69 => Opcode(0x69, Adc, Immediate)
    case 0x6A => Opcode(0x6A, Ror, Accumulator)
    case 0x6B => Opcode(0x6B, Invalid, Implicit)
    case 0x6C => Opcode(0x6C, Jmp, Indirect)
    case 0x6D => Opcode(0x6D, Adc, Absolute)
    case 0x6E => Opcode(0x6E, Ror, Absolute)
    case _ => Opcode(0x6F, Invalid, Implicit)
  }

  /** The entries 0x70 to 0x7F. */
  function Row7(b: Byte): (o: Opcode)
    requires 0x70 <= b <= 0x7F
    ensures o.value == b
  {
    match b
    case 0x70 => Opcode(0x70, Bvs, Relative)
    case 0x71 => Opcode(0x71, Adc, IndirectIndexed)
    case 0x72 => Opcode(0x72, Invalid, Implicit)
    case 0x73 => Opcode(0x73, Invalid, Implicit)
    case 0x74 => Opcode(0x74, Invalid, Implicit)
    case 0x75 => Opcode(0x75, Adc, ZeroPageX)
    case 0x76 => Opcode(0x76, Ror, ZeroPageX)
    case 0x77 => Opcode(0x77, Invalid, Implicit)
    case 0x78 => Opcode(0x78, Sei, Implicit)
    case 0x79 => Opcode(0x79, Adc, AbsoluteY)
    case 0x7A => Opcode(0x7A, Invalid, Implicit)
    case 0x7B => Opcode(0x7B, Invalid, Implicit)
    case 0x7C => Opcode(0x7C, Invalid, Implicit)
    case 0x7D => Opcode(0x7D, Adc, AbsoluteX)
    case 0x7E => Opcode(0x7E, Ror, AbsoluteX)
    case _ => Opcode(0x7F, Invalid, Implicit)
  }

  /** The entries 0x80 to 0x8F. */
  function Row8(b: Byte): (o: Opcode)
    requires 0x80 <= b <= 0x8F
    ensures o.value == b
  {
    match b
    case 0x80 => Opcode(0x80, Invalid, Implicit)
    case 0x81 => Opcode(0x81, Sta, IndexedIndirect)
    case 0x82 => Opcode(0x82, Invalid, Implicit)
    case 0x83 => Opcode(0x83, Invalid, Implicit)
    case 0x84 => Opcode(0x84, Sty, ZeroPage)
    case 0x85 => Opcode(0x85, Sta, ZeroPage)
    case 0x86 => Opcode(0x86, Stx, ZeroPage)
    case 0x87 => Opcode(0x87, Invalid, Implicit)
    case 0x88 => Opcode(0x88, Dey, Implicit)
    case 0x89 => Opcode(0x89, Invalid, Implicit)
    case 0x8A => Opcode(0x8A, Txa, Implicit)
    case 0x8B => Opcode(0x8B, Invalid, Implicit)
    case 0x8C => Opcode(0x8C, Sty, Absolute)
    case 0x8D => Opcode(0x8D, Sta, Absolute)
    case 0x8E => Opcode(0x8E, Stx, Absolute)
    case _ => Opcode(0x8F, Invalid, Implicit)
  }

  /** The entries 0x90 to 0x9F. */
  function Row9(b: Byte): (o: Opcode)
    requires 0x90 <= b <= 0x9F
    ensures o.value == b
  {
    match b
    case 0x90 => Opcode(0x90, Bcc, Relative)
    case 0x91 => Opcode(0x91, Sta, IndirectIndexed)
    case 0x92 => Opcode(0x92, Invalid, Implicit)
    case 0x93 => Opcode(0x93, Invalid, Implicit)
    case 0x94 => Opcode(0x94, Sty, ZeroPageX)
    case 0x95 => Opcode(0x95, Sta, ZeroPageX)
    case 0x96 => Opcode(0x96, Stx, ZeroPageY)
    case 0x97 => Opcode(0x97, Invalid, Implicit)
    case 0x98 => Opcode(0x98, Tya, Implicit)
    case 0x99 => Opcode(0x99, Sta, AbsoluteY)
    case 0x9A => Opcode(0x9A, Txs, Implicit)
    case 0x9B => Opcode(0x9B, Invalid, Implicit)
    case 0x9C => Opcode(0x9C, Invalid, Implicit)
    case 0x9D => Opcode(0x9D, Sta, AbsoluteX)
    case 0x9E => Opcode(0x9E, Invalid, Implicit)
    case _ => Opcode(0x9F, Invalid, Implicit)
  }

  /** The entries 0xA0 to 0xAF. */
  function RowA(b: Byte): (o: Opcode)
    requires 0xA0 <= b <= 0xAF
    ensures o.value == b
  {
    match b
    case 0xA0 => Opcode(0xA0, Ldy, Immediate)
    case 0xA1 => Opcode(0xA1, Lda, IndexedIndirect)
    case 0xA2 => Opcode(0xA2, Ldx, Immediate)
    case 0xA3 => Opcode(0xA3, Invalid, Implicit)
    case 0xA4 => Opcode(0xA4, Ldy, ZeroPage)
    case 0xA5 => Opcode(0xA5, Lda, ZeroPage)
    case 0xA6 => Opcode(0xA6, Ldx, ZeroPage)
    case 0xA7 => Opcode(0xA7, Invalid, Implicit)
    case 0xA8 => Opcode(0xA8, Tay, Implicit)
    case 0xA9 => Opcode(0xA9, Lda, Immediate)
    case 0xAA => Opcode(0xAA, Tax, Implicit)
    case 0xAB => Opcode(0xAB, Invalid, Implicit)
    case 0xAC => Opcode(0xAC, Ldy, Absolute)
    case 0xAD => Opcode(0xAD, Lda, Absolute)
    case 0xAE => Opcode(0xAE, Ldx, Absolute)
    case _ => Opcode(0xAF, Invalid, Implicit)
  }

  /** The entries 0xB0 to 0xBF. */
  function RowB(b: Byte): (o: Opcode)
    requires 0xB0 <= b <= 0xBF
    ensures o.value == b
  {
    match b
    case 0xB0 => Opcode(0xB0, Bcs, Relative)
    case 0xB1 => Opcode(0xB1, Lda, IndirectIndexed)
    case 0xB2 => Opcode(0xB2, Invalid, Implicit)
    case 0xB3 => Opcode(0xB3, Invalid, Implicit)
    case 0xB4 => Opcode(0xB4, Ldy, ZeroPageX)
    case 0xB5 => Opcode(0xB5, Lda, ZeroPageX)
    case 0xB6 => Opcode(0xB6, Ldx, ZeroPageY)
    case 0xB7 => Opcode(0xB7, Invalid, Implicit)
    case 0xB8 => Opcode(0xB8, Clv, Implicit)
    case 0xB9 => Opcode(0xB9, Lda, AbsoluteY)
    case 0xBA => Opcode(0xBA, Tsx, Implicit)
    case 0xBB => Opcode(0xBB, Invalid, Implicit)
    case 0xBC => Opcode(0xBC, Ldy, AbsoluteX)
    case 0xBD => Opcode(0xBD, Lda, AbsoluteX)
    case 0xBE => Opcode(0xBE, Ldx, AbsoluteY)
    case _ => Opcode(0xBF, Invalid, Implicit)
  }

  /** The entries 0xC0 to 0xCF. */
  function RowC(b: Byte): (o: Opcode)
    requires 0xC0 <= b <= 0xCF
    ensures o.value == b
  {
    match b
    case 0xC0 => Opcode(0xC0, Cpy, Immediate)
    case 0xC1 => Opcode(0xC1, Cmp, IndexedIndirect)
    case 0xC2 => Opcode(0xC2, Invalid, Implicit)
    case 0xC3 => Opcode(0xC3, Invalid, Implicit)
    case 0xC4 => Opcode(0xC4, Cpy, ZeroPage)
    case 0xC5 => Opcode(0xC5, Cmp, ZeroPage)
    case 0xC6 => Opcode(0xC6, Dec, ZeroPage)
    case 0xC7 => Opcode(0xC7, Invalid, Implicit)
    case 0xC8 => Opcode(0xC8, Iny, Implicit)
    case 0xC9 => Opcode(0xC9, Cmp, Immediate)
    case 0xCA => Opcode(0xCA, Dex, Implicit)
    case 0xCB => Opcode(0xCB, Invalid, Implicit)
    case 0xCC => Opcode(0xCC, Cpy, Absolute)
    case 0xCD => Opcode(0xCD, Cmp, Absolute)
    case 0xCE => Opcode(0xCE, Dec, Absolute)
    case _ => Opcode(0xCF, Invalid, Implicit)
  }

  /** The entries 0xD0 to 0xDF. */
  function RowD(b: Byte): (o: Opcode)
    requires 0xD0 <= b <= 0xDF
    ensures o.value == b
  {
    match b
    case 0xD0 => Opcode(0xD0, Bne, Relative)
    case 0xD1 => Opcode(0xD1, Cmp, IndirectIndexed)
    case 0xD2 => Opcode(0xD2, Invalid, Implicit)
    case 0xD3 => Opcode(0xD3, Invalid, Implicit)
    case 0xD4 => Opcode(0xD4, Invalid, Implicit)
    case 0xD5 => Opcode(0xD5, Cmp, ZeroPageX)
    case 0xD6 => Opcode(0xD6, Dec, ZeroPageX)
    case 0xD7 => Opcode(0xD7, Invalid, Implicit)
    case 0xD8 => Opcode(0xD8, Cld, Implicit)
    case 0xD9 => Opcode(0xD9, Cmp, AbsoluteY)
    case 0xDA => Opcode(0xDA, Invalid, Implicit)
    case 0xDB => Opcode(0xDB, Invalid, Implicit)
    case 0xDC => Opcode(0xDC, Invalid, Implicit)
    case 0xDD => Opcode(0xDD, Cmp, AbsoluteX)
    case 0xDE => Opcode(0xDE, Dec, AbsoluteX)
    case _ => Opcode(0xDF, Invalid, Implicit)
  }

  /** The entries 0xE0 to 0xEF. */
  function RowE(b: Byte): (o: Opcode)
    requires 0xE0 <= b <= 0xEF
    ensures o.value == b
  {
    match b
    case 0xE0 => Opcode(0xE0, Cpx, Immediate)
    case 0xE1 => Opcode(0xE1, Sbc, IndexedIndirect)
    case 0xE2 => Opcode(0xE2, Invalid, Implicit)
    case 0xE3 => Opcode(0xE3, Invalid, Implicit)
    case 0xE4 => Opcode(0xE4, Cpx, ZeroPage)
    case 0xE5 => Opcode(0xE5, Sbc, ZeroPage)
    case 0xE6 => Opcode(0xE6, Inc, ZeroPage)
    case 0xE7 => Opcode(0xE7, Invalid, Implicit)
    case 0xE8 => Opcode(0xE8, Inx, Implicit)
    case 0xE9 => Opcode(0xE9, Sbc, Immediate)
    case 0xEA => Opcode(0xEA, Nop, Implicit)
    case 0xEB => Opcode(0xEB, Invalid, Implicit)
    case 0xEC => Opcode(0xEC, Cpx, Absolute)
    case 0xED => Opcode(0xED, Sbc, Absolute)
    case 0xEE => Opcode(0xEE, Inc, Absolute)
    case _ => Opcode(0xEF, Invalid, Implicit)
  }

  /** The entries 0xF0 to 0xFF. */
  function RowF(b: Byte): (o: Opcode)
    requires 0xF0 <= b <= 0xFF
    ensures o.value == b
  {
    match b
    case 0xF0 => Opcode(0xF0, Beq, Relative)
    case 0xF1 => Opcode(0xF1, Sbc, IndirectIndexed)
    case 0xF2 => Opcode(0xF2, Invalid, Implicit)
    case 0xF3 => Opcode(0xF3, Invalid, Implicit)
    case 0xF4 => Opcode(0xF4, Invalid, Implicit)
    case 0xF5 => Opcode(0xF5, Sbc, ZeroPageX)
    case 0xF6 => Opcode(0xF6, Inc, ZeroPageX)
    case 0xF7 => Opcode(0xF7, Invalid, Implicit)
    case 0xF8 => Opcode(0xF8, Sed, Implicit)
    case 0xF9 => Opcode(0xF9, Sbc, AbsoluteY)
    case 0xFA => Opcode(0xFA, Invalid, Implicit)
    case 0xFB => Opcode(0xFB, Invalid, Implicit)
    case 0xFC => Opcode(0xFC, Invalid, Implicit)
    case 0xFD => Opcode(0xFD, Sbc, AbsoluteX)
    case 0xFE => Opcode(0xFE, Inc, AbsoluteX)
    case _ => Opcode(0xFF, Invalid, Implicit)
  }

  /** The entry for an opcode byte, chosen by the byte's high nibble. */
  function Entry(b: Byte): (o: Opcode)
    ensures o.value == b
  {
    if b <= 0x0F then Row0(b)
    else if b <= 0x1F then Row1(b)
    else if b <= 0x2F then Row2(b)
    else if b <= 0x3F then Row3(b)
    else if b <= 0x4F then Row4(b)
    else if b <= 0x5F then Row5(b)
    else if b <= 0x6F then Row6(b)
    else if b <= 0x7F then Row7(b)
    else if b <= 0x8F then Row8(b)
    else if b <= 0x9F then Row9(b)
    else if b <= 0xAF then RowA(b)
    else if b <= 0xBF then RowB(b)
    else if b <= 0xCF then RowC(b)
    else if b <= 0xDF then RowD(b)
    else if b <= 0xEF then RowE(b)
    else RowF(b)
  }

  /** The table as the source lists it: entry `k` is the entry for byte `k`. */
  function Table(): (t: seq<Opcode>)
    ensures |t| == 256
  {
    seq(256, k requires 0 <= k < 256 => Entry(k as Byte))
  }

  /**
   * The first byte of the table listed with an instruction and a mode, keyed
   * by the instruction; `None` when the table lists no such pair.
   */
  function Encode(i: Instruction, m: AddressingMode): Option<Byte>
  {
    match i
    case Brk => if m == Implicit then Some(0x00) else None
    case Ora => (match m case IndexedIndirect => Some(0x01) case ZeroPage => Some(0x05) case Immediate => Some(0x09) case Absolute => Some(0x0D) case IndirectIndexed => Some(0x11) case ZeroPageX => Some(0x15) case AbsoluteY => Some(0x19) case AbsoluteX => Some(0x1D) case _ => None)
    case Invalid => if m == Implicit then Some(0x02) else None
    case Nop => (match m case ZeroPage => Some(0x04) case Implicit => Some(0xEA) case _ => None)
    case Asl => (match m case ZeroPage => Some(0x06) case Accumulator => Some(0x0A) case Absolute => Some(0x0E) case ZeroPageX => Some(0x16) case AbsoluteX => Some(0x1E) case _ => None)
    case Php => if m == Implicit then Some(0x08) else None
    case Bpl => if m == Relative then Some(0x10) else None
    case Clc => if m == Implicit then Some(0x18) else None
    case Jsr => if m == Absolute then Some(0x20) else None
    case And => (match m case IndexedIndirect => Some(0x21) case ZeroPage => Some(0x25) case Immediate => Some(0x29) case Absolute => Some(0x2D) case IndirectIndexed => Some(0x31) case ZeroPageX => Some(0x35) case AbsoluteY => Some(0x39) case AbsoluteX => Some(0x3D) case _ => None)
    case Bit => (match m case ZeroPage => Some(0x24) case Absolute => Some(0x2C) case _ => None)
    case Rol => (match m case ZeroPage => Some(0x26) case Accumulator => Some(0x2A) case Absolute => Some(0x2E) case ZeroPageX => Some(0x36) case AbsoluteX => Some(0x3E) case _ => None)
    case Plp => if m == Implicit then Some(0x28) else None
    case Bmi => if m == Relative then Some(0x30) else None
    case Sec => if m == Implicit then Some(0x38) else None
    case Rti => if m == Implicit then Some(0x40) else None
    case Eor => (match m case IndexedIndirect => Some(0x41) case ZeroPage => Some(0x45) case Immediate => Some(0x49) case Absolute => Some(0x4D) case IndirectIndexed => Some(0x51) case ZeroPageX => Some(0x55) case AbsoluteY => Some(0x59) case AbsoluteX => Some(0x5D) case _ => None)
    case Lsr => (match m case ZeroPage => Some(0x46) case Accumulator => Some(0x4A) case Absolute => Some(0x4E) case ZeroPageX => Some(0x56) case AbsoluteX => Some(0x5E) case _ => None)
    case Pha => if m == Implicit then Some(0x48) else None
    case Jmp => (match m case Absolute => Some(0x4C) case Indirect => Some(0x6C) case _ => None)
    case Bvc => if m == Relative then Some(0x50) else None
    case Cli => if m == Implicit then Some(0x58) else None
    case Rts => if m == Implicit then Some(0x60) else None
    case Adc => (match m case IndexedIndirect => Some(0x61) case ZeroPage => Some(0x65) case Immediate => Some(0x69) case Absolute => Some(0x6D) case IndirectIndexed => Some(0x71) case ZeroPageX => Some(0x75) case AbsoluteY => Some(0x79) case AbsoluteX => Some(0x7D) case _ => None)
    case Ror => (match m case ZeroPage => Some(0x66) case Accumulator => Some(0x6A) case Absolute => Some(0x6E) case ZeroPageX => Some(0x76) case AbsoluteX => Some(0x7E) case _ => None)
    case Pla => if m == Implicit then Some(0x68) else None
    case Bvs => if m == Relative then Some(0x70) else None
    case Sei => if m == Implicit then Some(0x78) else None
    case Sta => (match m case IndexedIndirect => Some(0x81) case ZeroPage => Some(0x85) case Absolute => Some(0x8D) case IndirectIndexed => Some(0x91) case ZeroPageX => Some(0x95) case AbsoluteY => Some(0x99) case AbsoluteX => Some(0x9D) case _ => None)
    case Sty => (match m case ZeroPage => Some(0x84) case Absolute => Some(0x8C) case ZeroPageX => Some(0x94) case _ => None)
    case Stx => (match m case ZeroPage => Some(0x86) case Absolute => Some(0x8E) case ZeroPageY => Some(0x96) case _ => None)
    case Dey => if m == Implicit then Some(0x88) else None
    case Txa => if m == Implicit then Some(0x8A) else None
    case Bcc => if m == Relative then Some(0x90) else None
    case Tya => if m == Implicit then Some(0x98) else None
    case Txs => if m == Implicit then Some(0x9A) else None
    case Ldy => (match m case Immediate => Some(0xA0) case ZeroPage => Some(0xA4) case Absolute => Some(0xAC) case ZeroPageX => Some(0xB4) case AbsoluteX => Some(0xBC) case _ => None)
    case Lda => (match m case IndexedIndirect => Some(0xA1) case ZeroPage => Some(0xA5) case Immediate => Some(0xA9) case Absolute => Some(0xAD) case IndirectIndexed => Some(0xB1) case ZeroPageX => Some(0xB5) case AbsoluteY => Some(0xB9) case AbsoluteX => Some(0xBD) case _ => None)
    case Ldx => (match m case Immediate => Some(0xA2) case ZeroPage => Some(0xA6) case Absolute => Some(0xAE) case ZeroPageY => Some(0xB6) case AbsoluteY => Some(0xBE) case _ => None)
    case Tay => if m == Implicit then Some(0xA8) else None
    case Tax => if m == Implicit then Some(0xAA) else None
    case Bcs => if m == Relative then Some(0xB0) else None
    case Clv => if m == Implicit then Some(0xB8) else None
    case Tsx => if m == Implicit then Some(0xBA) else None
    case Cpy => (match m case Immediate => Some(0xC0) case ZeroPage => Some(0xC4) case Absolute => Some(0xCC) case _ => None)
    case Cmp => (match m case IndexedIndirect => Some(0xC1) case ZeroPage => Some(0xC5) case Immediate => Some(0xC9) case Absolute => Some(0xCD) case IndirectIndexed => Some(0xD1) case ZeroPageX => Some(0xD5) case AbsoluteY => Some(0xD9) case AbsoluteX => Some(0xDD) case _ => None)
    case Dec => (match m case ZeroPage => Some(0xC6) case Absolute => Some(0xCE) case ZeroPageX => Some(0xD6) case AbsoluteX => Some(0xDE) case _ => None)
    case Iny => if m == Implicit then Some(0xC8) else None
    case Dex => if m == Implicit then Some(0xCA) else None
    case Bne => if m == Relative then Some(0xD0) else None
    case Cld => if m == Implicit then Some(0xD8) else None
    case Cpx => (match m case Immediate => Some(0xE0) case ZeroPage => Some(0xE4) case Absolute => Some(0xEC) case _ => None)
    case Sbc => (match m case IndexedIndirect => Some(0xE1) case ZeroPage => Some(0xE5) case Immediate => Some(0xE9) case Absolute => Some(0xED) case IndirectIndexed => Some(0xF1) case ZeroPageX => Some(0xF5) case AbsoluteY => Some(0xF9) case AbsoluteX => Some(0xFD) case _ => None)
    case Inc => (match m case ZeroPage => Some(0xE6) case Absolute => Some(0xEE) case ZeroPageX => Some(0xF6) case AbsoluteX => Some(0xFE) case _ => None)
    case Inx => if m == Implicit then Some(0xE8) else None
    case Beq => if m == Relative then Some(0xF0) else None
    case Sed => if m == Implicit then Some(0xF8) else None
  }
  /** Entry `k` of the table is the entry for byte `k`, whose value is `k`. */
  lemma TableIndex(k: int)
    requires 0 <= k < 256
    ensures Table()[k] == Entry(k as Byte) && Table()[k].value as int == k
  {
    IndexExact(k);
  }

  // ---------------------------------------------------------------------
  // Decoding: the search the fetch-decode loop runs

  /**
   * `first(where: { $0.value == byte })` over the entries of a table from `k` on: the
   * index of the first entry holding the byte, if any.
   */
  function FindValue(t: seq<Opcode>, b: Byte, k: nat): (r: Option<nat>)
    requires k <= |t|
    ensures r.Some? ==> k <= r.value < |t| && t[r.value].value == b
    ensures r.Some? ==> forall j :: k <= j < r.value ==> t[j].value != b
    ensures r.None? ==> forall j :: k <= j < |t| ==> t[j].value != b
    decreases |t| - k
  {
    if k == |t| then None
    else if t[k].value == b then Some(k)
    else FindValue(t, b, k + 1)
  }

  /** The entry the fetch-decode loop finds for an opcode byte, if any. */
  function Lookup(b: Byte): (r: Option<Opcode>)
    ensures r.Some? ==> r.value.value == b
  {
    match FindValue(Table(), b, 0)
    case Some(k) => Some(Table()[k])
    case None => None
  }

  /** The search always succeeds, and finds the entry of the byte itself. */
  lemma LookupFindsEntry(b: Byte)
    ensures Lookup(b) == Some(Entry(b))
  {
    var k := b as int;
    TableIndex(k);
    var j := FindValue(Table(), b, 0).value;
    TableIndex(j);
  }

  // ---------------------------------------------------------------------
  // Encoding: the reverse search

  /** An entry with the given instruction and addressing mode. */
  predicate Matches(o: Opcode, i: Instruction, m: AddressingMode)
  {
    o.instruction == i && o.mode == m
  }

  /** The table lists the pair. */
  predicate Listed(i: Instruction, m: AddressingMode)
  {
    exists k :: 0 <= k < 256 && Matches(Table()[k], i, m)
  }

  /**
   * `first(where: { $0.instruction == i && $0.addressingMode == m })` over
   * the entries of a table from `k` on.
   */
  function FindPair(t: seq<Opcode>, i: Instruction, m: AddressingMode, k: nat): (r: Option<nat>)
    requires k <= |t|
    ensures r.Some? ==> k <= r.value < |t| && Matches(t[r.value], i, m)
    ensures r.Some? ==> forall j :: k <= j < r.value ==> !Matches(t[j], i, m)
    ensures r.None? ==> forall j :: k <= j < |t| ==> !Matches(t[j], i, m)
    decreases |t| - k
  {
    if k == |t| then None
    else if Matches(t[k], i, m) then Some(k)
    else FindPair(t, i, m, k + 1)
  }

  /**
   * `opcode(_:_:)`: the byte of the first entry listing the pair. The
   * force-unwrap traps for a pair the table does not list.
   */
  function OpcodeByte(i: Instruction, m: AddressingMode): Byte
    requires Listed(i, m)
  {
    var r := FindPair(Table(), i, m, 0);
    Table()[r.value].value
  }


  // ---------------------------------------------------------------------
  // The table against `Encode` and the dispatcher

  /**
   * `Encode` gives the byte of an entry back, unless it is an `invalid`
   * entry, which is always implicit.
   */
  predicate Encoded(o: Opcode)
  {
    && (o.instruction == Invalid ==> o.mode == Implicit)
    && (o.instruction != Invalid ==> Encode(o.instruction, o.mode) == Some(o.value))
  }

  /** The dispatcher has a working handler for the mode of an entry, unless its instruction is a stub or only prints. */
  predicate Handled(o: Opcode)
  {
    IsStub(o.instruction) || OnlyPrints(o.instruction) || Acts(o.instruction, o.mode)
  }

  /** The entries 0x00 to 0x03 are what `Encode` gives back. */
  lemma Entries00To03Encoded(b: Byte)
    requires b <= 0x03
    ensures Encoded(Row0(b))
  {
  }

  /** The entries 0x04 to 0x07 are what `Encode` gives back. */
  lemma Entries04To07Encoded(b: Byte)
    requires 0x04 <= b <= 0x07
    ensures Encoded(Row0(b))
  {
  }

  /** The entries 0x08 to 0x0B are what `Encode` gives back. */
  lemma Entries08To0BEncoded(b: Byte)
    requires 0x08 <= b <= 0x0B
    ensures Encoded(Row0(b))
  {
  }

  /** The entries 0x0C to 0x0F are what `Encode` gives back. */
  lemma Entries0CTo0FEncoded(b: Byte)
    requires 0x0C <= b <= 0x0F
    ensures Encoded(Row0(b))
  {
  }

  /** The entries 0x10 to 0x13 are what `Encode` gives back. */
  lemma Entries10To13Encoded(b: Byte)
    requires 0x10 <= b <= 0x13
    ensures Encoded(Row1(b))
  {
  }

  /** The entries 0x14 to 0x17 are what `Encode` gives back. */
  lemma Entries14To17Encoded(b: Byte)
    requires 0x14 <= b <= 0x17
    ensures Encoded(Row1(b))
  {
  }

  /** The entries 0x18 to 0x1B are what `Encode` gives back. */
  lemma Entries18To1BEncoded(b: Byte)
    requires 0x18 <= b <= 0x1B
    ensures Encoded(Row1(b))
  {
  }

  /** The entries 0x1C to 0x1F are what `Encode` gives back. */
  lemma Entries1CTo1FEncoded(b: Byte)
    requires 0x1C <= b <= 0x1F
    ensures Encoded(Row1(b))
  {
  }

  /** The entries 0x20 to 0x23 are what `Encode` gives back. */
  lemma Entries20To23Encoded(b: Byte)
    requires 0x20 <= b <= 0x23
    ensures Encoded(Row2(b))
  {
  }

  /** The entries 0x24 to 0x27 are what `Encode` gives back. */
  lemma Entries24To27Encoded(b: Byte)
    requires 0x24 <= b <= 0x27
    ensures Encoded(Row2(b))
  {
  }

  /** The entries 0x28 to 0x2B are what `Encode` gives back. */
  lemma Entries28To2BEncoded(b: Byte)
    requires 0x28 <= b <= 0x2B
    ensures Encoded(Row2(b))
  {
  }

  /** The entries 0x2C to 0x2F are what `Encode` gives back. */
  lemma Entries2CTo2FEncoded(b: Byte)
    requires 0x2C <= b <= 0x2F
    ensures Encoded(Row2(b))
  {
  }

  /** The entries 0x30 to 0x33 are what `Encode` gives back. */
  lemma Entries30To33Encoded(b: Byte)
    requires 0x30 <= b <= 0x33
    ensures Encoded(Row3(b))
  {
  }

  /** The entries 0x34 to 0x37 are what `Encode` gives back. */
  lemma Entries34To37Encoded(b: Byte)
    requires 0x34 <= b <= 0x37
    ensures Encoded(Row3(b))
  {
  }

  /** The entries 0x38 to 0x3B are what `Encode` gives back. */
  lemma Entries38To3BEncoded(b: Byte)
    requires 0x38 <= b <= 0x3B
    ensures Encoded(Row3(b))
  {
  }

  /** The entries 0x3C to 0x3F are what `Encode` gives back. */
  lemma Entries3CTo3FEncoded(b: Byte)
    requires 0x3C <= b <= 0x3F
    ensures Encoded(Row3(b))
  {
  }

  /** The entries 0x40 to 0x43 are what `Encode` gives back. */
  lemma Entries40To43Encoded(b: Byte)
    requires 0x40 <= b <= 0x43
    ensures Encoded(Row4(b))
  {
  }

  /** The entries 0x44 to 0x47 are what `Encode` gives back. */
  lemma Entries44To47Encoded(b: Byte)
    requires 0x44 <= b <= 0x47
    ensures Encoded(Row4(b))
  {
  }

  /** The entries 0x48 to 0x4B are what `Encode` gives back. */
  lemma Entries48To4BEncoded(b: Byte)
    requires 0x48 <= b <= 0x4B
    ensures Encoded(Row4(b))
  {
  }

  /** The entries 0x4C to 0x4F are what `Encode` gives back. */
  lemma Entries4CTo4FEncoded(b: Byte)
    requires 0x4C <= b <= 0x4F
    ensures Encoded(Row4(b))
  {
  }

  /** The entries 0x50 to 0x53 are what `Encode` gives back. */
  lemma Entries50To53Encoded(b: Byte)
    requires 0x50 <= b <= 0x53
    ensures Encoded(Row5(b))
  {
  }

  /** The entries 0x54 to 0x57 are what `Encode` gives back. */
  lemma Entries54To57Encoded(b: Byte)
    requires 0x54 <= b <= 0x57
    ensures Encoded(Row5(b))
  {
  }

  /** The entries 0x58 to 0x5B are what `Encode` gives back. */
  lemma Entries58To5BEncoded(b: Byte)
    requires 0x58 <= b <= 0x5B
    ensures Encoded(Row5(b))
  {
  }

  /** The entries 0x5C to 0x5F are what `Encode` gives back. */
  lemma Entries5CTo5FEncoded(b: Byte)
    requires 0x5C <= b <= 0x5F
    ensures Encoded(Row5(b))
  {
  }

  /** The entries 0x60 to 0x63 are what `Encode` gives back. */
  lemma Entries60To63Encoded(b: Byte)
    requires 0x60 <= b <= 0x63
    ensures Encoded(Row6(b))
  {
  }

  /** The entries 0x64 to 0x67 are what `Encode` gives back. */
  lemma Entries64To67Encoded(b: Byte)
    requires 0x64 <= b <= 0x67
    ensures Encoded(Row6(b))
  {
  }

  /** The entries 0x68 to 0x6B are what `Encode` gives back. */
  lemma Entries68To6BEncoded(b: Byte)
    requires 0x68 <= b <= 0x6B
    ensures Encoded(Row6(b))
  {
  }

  /** The entries 0x6C to 0x6F are what `Encode` gives back. */
  lemma Entries6CTo6FEncoded(b: Byte)
    requires 0x6C <= b <= 0x6F
    ensures Encoded(Row6(b))
  {
  }

  /** The entries 0x70 to 0x73 are what `Encode` gives back. */
  lemma Entries70To73Encoded(b: Byte)
    requires 0x70 <= b <= 0x73
    ensures Encoded(Row7(b))
  {
  }

  /** The entries 0x74 to 0x77 are what `Encode` gives back. */
  lemma Entries74To77Encoded(b: Byte)
    requires 0x74 <= b <= 0x77
    ensures Encoded(Row7(b))
  {
  }

  /** The entries 0x78 to 0x7B are what `Encode` gives back. */
  lemma Entries78To7BEncoded(b: Byte)
    requires 0x78 <= b <= 0x7B
    ensures Encoded(Row7(b))
  {
  }

  /** The entries 0x7C to 0x7F are what `Encode` gives back. */
  lemma Entries7CTo7FEncoded(b: Byte)
    requires 0x7C <= b <= 0x7F
    ensures Encoded(Row7(b))
  {
  }

  /** The entries 0x80 to 0x83 are what `Encode` gives back. */
  lemma Entries80To83Encoded(b: Byte)
    requires 0x80 <= b <= 0x83
    ensures Encoded(Row8(b))
  {
  }

  /** The entries 0x84 to 0x87 are what `Encode` gives back. */
  lemma Entries84To87Encoded(b: Byte)
    requires 0x84 <= b <= 0x87
    ensures Encoded(Row8(b))
  {
  }

  /** The entries 0x88 to 0x8B are what `Encode` gives back. */
  lemma Entries88To8BEncoded(b: Byte)
    requires 0x88 <= b <= 0x8B
    ensures Encoded(Row8(b))
  {
  }

  /** The entries 0x8C to 0x8F are what `Encode` gives back. */
  lemma Entries8CTo8FEncoded(b: Byte)
    requires 0x8C <= b <= 0x8F
    ensures Encoded(Row8(b))
  {
  }

  /** The entries 0x90 to 0x93 are what `Encode` gives back. */
  lemma Entries90To93Encoded(b: Byte)
    requires 0x90 <= b <= 0x93
    ensures Encoded(Row9(b))
  {
  }

  /** The entries 0x94 to 0x97 are what `Encode` gives back. */
  lemma Entries94To97Encoded(b: Byte)
    requires 0x94 <= b <= 0x97
    ensures Encoded(Row9(b))
  {
  }

  /** The entries 0x98 to 0x9B are what `Encode` gives back. */
  lemma Entries98To9BEncoded(b: Byte)
    requires 0x98 <= b <= 0x9B
    ensures Encoded(Row9(b))
  {
  }

  /** The entries 0x9C to 0x9F are what `Encode` gives back. */
  lemma Entries9CTo9FEncoded(b: Byte)
    requires 0x9C <= b <= 0x9F
    ensures Encoded(Row9(b))
  {
  }

  /** The entries 0xA0 to 0xA3 are what `Encode` gives back. */
  lemma EntriesA0ToA3Encoded(b: Byte)
    requires 0xA0 <= b <= 0xA3
    ensures Encoded(RowA(b))
  {
  }

  /** The entries 0xA4 to 0xA7 are what `Encode` gives back. */
  lemma EntriesA4ToA7Encoded(b: Byte)
    requires 0xA4 <= b <= 0xA7
    ensures Encoded(RowA(b))
  {
  }

  /** The entries 0xA8 to 0xAB are what `Encode` gives back. */
  lemma EntriesA8ToABEncoded(b: Byte)
    requires 0xA8 <= b <= 0xAB
    ensures Encoded(RowA(b))
  {
  }

  /** The entries 0xAC to 0xAF are what `Encode` gives back. */
  lemma EntriesACToAFEncoded(b: Byte)
    requires 0xAC <= b <= 0xAF
    ensures Encoded(RowA(b))
  {
  }

  /** The entries 0xB0 to 0xB3 are what `Encode` gives back. */
  lemma EntriesB0ToB3Encoded(b: Byte)
    requires 0xB0 <= b <= 0xB3
    ensures Encoded(RowB(b))
  {
  }

  /** The entries 0xB4 to 0xB7 are what `Encode` gives back. */
  lemma EntriesB4ToB7Encoded(b: Byte)
    requires 0xB4 <= b <= 0xB7
    ensures Encoded(RowB(b))
  {
  }

  /** The entries 0xB8 to 0xBB are what `Encode` gives back. */
  lemma EntriesB8ToBBEncoded(b: Byte)
    requires 0xB8 <= b <= 0xBB
    ensures Encoded(RowB(b))
  {
  }

  /** The entries 0xBC to 0xBF are what `Encode` gives back. */
  lemma EntriesBCToBFEncoded(b: Byte)
    requires 0xBC <= b <= 0xBF
    ensures Encoded(RowB(b))
  {
  }

  /** The entries 0xC0 to 0xC3 are what `Encode` gives back. */
  lemma EntriesC0ToC3Encoded(b: Byte)
    requires 0xC0 <= b <= 0xC3
    ensures Encoded(RowC(b))
  {
  }

  /** The entries 0xC4 to 0xC7 are what `Encode` gives back. */
  lemma EntriesC4ToC7Encoded(b: Byte)
    requires 0xC4 <= b <= 0xC7
    ensures Encoded(RowC(b))
  {
  }

  /** The entries 0xC8 to 0xCB are what `Encode` gives back. */
  lemma EntriesC8ToCBEncoded(b: Byte)
    requires 0xC8 <= b <= 0xCB
    ensures Encoded(RowC(b))
  {
  }

  /** The entries 0xCC to 0xCF are what `Encode` gives back. */
  lemma EntriesCCToCFEncoded(b: Byte)
    requires 0xCC <= b <= 0xCF
    ensures Encoded(RowC(b))
  {
  }

  /** The entries 0xD0 to 0xD3 are what `Encode` gives back. */
  lemma EntriesD0ToD3Encoded(b: Byte)
    requires 0xD0 <= b <= 0xD3
    ensures Encoded(RowD(b))
  {
  }

  /** The entries 0xD4 to 0xD7 are what `Encode` gives back. */
  lemma EntriesD4ToD7Encoded(b: Byte)
    requires 0xD4 <= b <= 0xD7
    ensures Encoded(RowD(b))
  {
  }

  /** The entries 0xD8 to 0xDB are what `Encode` gives back. */
  lemma EntriesD8ToDBEncoded(b: Byte)
    requires 0xD8 <= b <= 0xDB
    ensures Encoded(RowD(b))
  {
  }

  /** The entries 0xDC to 0xDF are what `Encode` gives back. */
  lemma EntriesDCToDFEncoded(b: Byte)
    requires 0xDC <= b <= 0xDF
    ensures Encoded(RowD(b))
  {
  }

  /** The entries 0xE0 to 0xE3 are what `Encode` gives back. */
  lemma EntriesE0ToE3Encoded(b: Byte)
    requires 0xE0 <= b <= 0xE3
    ensures Encoded(RowE(b))
  {
  }

  /** The entries 0xE4 to 0xE7 are what `Encode` gives back. */
  lemma EntriesE4ToE7Encoded(b: Byte)
    requires 0xE4 <= b <= 0xE7
    ensures Encoded(RowE(b))
  {
  }

  /** The entries 0xE8 to 0xEB are what `Encode` gives back. */
  lemma EntriesE8ToEBEncoded(b: Byte)
    requires 0xE8 <= b <= 0xEB
    ensures Encoded(RowE(b))
  {
  }

  /** The entries 0xEC to 0xEF are what `Encode` gives back. */
  lemma EntriesECToEFEncoded(b: Byte)
    requires 0xEC <= b <= 0xEF
    ensures Encoded(RowE(b))
  {
  }

  /** The entries 0xF0 to 0xF3 are what `Encode` gives back. */
  lemma EntriesF0ToF3Encoded(b: Byte)
    requires 0xF0 <= b <= 0xF3
    ensures Encoded(RowF(b))
  {
  }

  /** The entries 0xF4 to 0xF7 are what `Encode` gives back. */
  lemma EntriesF4ToF7Encoded(b: Byte)
    requires 0xF4 <= b <= 0xF7
    ensures Encoded(RowF(b))
  {
  }

  /** The entries 0xF8 to 0xFB are what `Encode` gives back. */
  lemma EntriesF8ToFBEncoded(b: Byte)
    requires 0xF8 <= b <= 0xFB
    ensures Encoded(RowF(b))
  {
  }

  /** The entries 0xFC to 0xFF are what `Encode` gives back. */
  lemma EntriesFCToFFEncoded(b: Byte)
    requires 0xFC <= b <= 0xFF
    ensures Encoded(RowF(b))
  {
  }

  /** Every entry of the table is `Encode` gives back. */
  lemma EntryEncoded(b: Byte)
    ensures Encoded(Entry(b))
  {
    if b <= 0x03 {
      Entries00To03Encoded(b);
    } else if b <= 0x07 {
      Entries04To07Encoded(b);
    } else if b <= 0x0B {
      Entries08To0BEncoded(b);
    } else if b <= 0x0F {
      Entries0CTo0FEncoded(b);
    } else if b <= 0x13 {
      Entries10To13Encoded(b);
    } else if b <= 0x17 {
      Entries14To17Encoded(b);
    } else if b <= 0x1B {
      Entries18To1BEncoded(b);
    } else if b <= 0x1F {
      Entries1CTo1FEncoded(b);
    } else if b <= 0x23 {
      Entries20To23Encoded(b);
    } else if b <= 0x27 {
      Entries24To27Encoded(b);
    } else if b <= 0x2B {
      Entries28To2BEncoded(b);
    } else if b <= 0x2F {
      Entries2CTo2FEncoded(b);
    } else if b <= 0x33 {
      Entries30To33Encoded(b);
    } else if b <= 0x37 {
      Entries34To37Encoded(b);
    } else if b <= 0x3B {
      Entries38To3BEncoded(b);
    } else if b <= 0x3F {
      Entries3CTo3FEncoded(b);
    } else if b <= 0x43 {
      Entries40To43Encoded(b);
    } else if b <= 0x47 {
      Entries44To47Encoded(b);
    } else if b <= 0x4B {
      Entries48To4BEncoded(b);
    } else if b <= 0x4F {
      Entries4CTo4FEncoded(b);
    } else if b <= 0x53 {
      Entries50To53Encoded(b);
    } else if b <= 0x57 {
      Entries54To57Encoded(b);
    } else if b <= 0x5B {
      Entries58To5BEncoded(b);
    } else if b <= 0x5F {
      Entries5CTo5FEncoded(b);
    } else if b <= 0x63 {
      Entries60To63Encoded(b);
    } else if b <= 0x67 {
      Entries64To67Encoded(b);
    } else if b <= 0x6B {
      Entries68To6BEncoded(b);
    } else if b <= 0x6F {
      Entries6CTo6FEncoded(b);
    } else if b <= 0x73 {
      Entries70To73Encoded(b);
    } else if b <= 0x77 {
      Entries74To77Encoded(b);
    } else if b <= 0x7B {
      Entries78To7BEncoded(b);
    } else if b <= 0x7F {
      Entries7CTo7FEncoded(b);
    } else if b <= 0x83 {
      Entries80To83Encoded(b);
    } else if b <= 0x87 {
      Entries84To87Encoded(b);
    } else if b <= 0x8B {
      Entries88To8BEncoded(b);
    } else if b <= 0x8F {
      Entries8CTo8FEncoded(b);
    } else if b <= 0x93 {
      Entries90To93Encoded(b);
    } else if b <= 0x97 {
      Entries94To97Encoded(b);
    } else if b <= 0x9B {
      Entries98To9BEncoded(b);
    } else if b <= 0x9F {
      Entries9CTo9FEncoded(b);
    } else if b <= 0xA3 {
      EntriesA0ToA3Encoded(b);
    } else if b <= 0xA7 {
      EntriesA4ToA7Encoded(b);
    } else if b <= 0xAB {
      EntriesA8ToABEncoded(b);
    } else if b <= 0xAF {
      EntriesACToAFEncoded(b);
    } else if b <= 0xB3 {
      EntriesB0ToB3Encoded(b);
    } else if b <= 0xB7 {
      EntriesB4ToB7Encoded(b);
    } else if b <= 0xBB {
      EntriesB8ToBBEncoded(b);
    } else if b <= 0xBF {
      EntriesBCToBFEncoded(b);
    } else if b <= 0xC3 {
      EntriesC0ToC3Encoded(b);
    } else if b <= 0xC7 {
      EntriesC4ToC7Encoded(b);
    } else if b <= 0xCB {
      EntriesC8ToCBEncoded(b);
    } else if b <= 0xCF {
      EntriesCCToCFEncoded(b);
    } else if b <= 0xD3 {
      EntriesD0ToD3Encoded(b);
    } else if b <= 0xD7 {
      EntriesD4ToD7Encoded(b);
    } else if b <= 0xDB {
      EntriesD8ToDBEncoded(b);
    } else if b <= 0xDF {
      EntriesDCToDFEncoded(b);
    } else if b <= 0xE3 {
      EntriesE0ToE3Encoded(b);
    } else if b <= 0xE7 {
      EntriesE4ToE7Encoded(b);
    } else if b <= 0xEB {
      EntriesE8ToEBEncoded(b);
    } else if b <= 0xEF {
      EntriesECToEFEncoded(b);
    } else if b <= 0xF3 {
      EntriesF0ToF3Encoded(b);
    } else if b <= 0xF7 {
      EntriesF4ToF7Encoded(b);
    } else if b <= 0xFB {
      EntriesF8ToFBEncoded(b);
    } else {
      EntriesFCToFFEncoded(b);
    }
  }

  /** The entries 0x00 to 0x0F are handled. */
  lemma Entries00To0FHandled(b: Byte)
    requires b <= 0x0F
    ensures Handled(Row0(b))
  {
  }

  /** The entries 0x10 to 0x1F are handled. */
  lemma Entries10To1FHandled(b: Byte)
    requires 0x10 <= b <= 0x1F
    ensures Handled(Row1(b))
  {
  }

  /** The entries 0x20 to 0x2F are handled. */
  lemma Entries20To2FHandled(b: Byte)
    requires 0x20 <= b <= 0x2F
    ensures Handled(Row2(b))
  {
  }

  /** The entries 0x30 to 0x3F are handled. */
  lemma Entries30To3FHandled(b: Byte)
    requires 0x30 <= b <= 0x3F
    ensures Handled(Row3(b))
  {
  }

  /** The entries 0x40 to 0x4F are handled. */
  lemma Entries40To4FHandled(b: Byte)
    requires 0x40 <= b <= 0x4F
    ensures Handled(Row4(b))
  {
  }

  /** The entries 0x50 to 0x5F are handled. */
  lemma Entries50To5FHandled(b: Byte)
    requires 0x50 <= b <= 0x5F
    ensures Handled(Row5(b))
  {
  }

  /** The entries 0x60 to 0x6F are handled. */
  lemma Entries60To6FHandled(b: Byte)
    requires 0x60 <= b <= 0x6F
    ensures Handled(Row6(b))
  {
  }

  /** The entries 0x70 to 0x7F are handled. */
  lemma Entries70To7FHandled(b: Byte)
    requires 0x70 <= b <= 0x7F
    ensures Handled(Row7(b))
  {
  }

  /** The entries 0x80 to 0x8F are handled. */
  lemma Entries80To8FHandled(b: Byte)
    requires 0x80 <= b <= 0x8F
    ensures Handled(Row8(b))
  {
  }

  /** The entries 0x90 to 0x9F are handled. */
  lemma Entries90To9FHandled(b: Byte)
    requires 0x90 <= b <= 0x9F
    ensures Handled(Row9(b))
  {
  }

  /** The entries 0xA0 to 0xAF are handled. */
  lemma EntriesA0ToAFHandled(b: Byte)
    requires 0xA0 <= b <= 0xAF
    ensures Handled(RowA(b))
  {
  }

  /** The entries 0xB0 to 0xBF are handled. */
  lemma EntriesB0ToBFHandled(b: Byte)
    requires 0xB0 <= b <= 0xBF
    ensures Handled(RowB(b))
  {
  }

  /** The entries 0xC0 to 0xCF are handled. */
  lemma EntriesC0ToCFHandled(b: Byte)
    requires 0xC0 <= b <= 0xCF
    ensures Handled(RowC(b))
  {
  }

  /** The entries 0xD0 to 0xDF are handled. */
  lemma EntriesD0ToDFHandled(b: Byte)
    requires 0xD0 <= b <= 0xDF
    ensures Handled(RowD(b))
  {
  }

  /** The entries 0xE0 to 0xEF are handled. */
  lemma EntriesE0ToEFHandled(b: Byte)
    requires 0xE0 <= b <= 0xEF
    ensures Handled(RowE(b))
  {
  }

  /** The entries 0xF0 to 0xFF are handled. */
  lemma EntriesF0ToFFHandled(b: Byte)
    requires 0xF0 <= b <= 0xFF
    ensures Handled(RowF(b))
  {
  }

  /** Every entry of the table is handled. */
  lemma EntryHandled(b: Byte)
    ensures Handled(Entry(b))
  {
    if b <= 0x0F {
      Entries00To0FHandled(b);
    } else if b <= 0x1F {
      Entries10To1FHandled(b);
    } else if b <= 0x2F {
      Entries20To2FHandled(b);
    } else if b <= 0x3F {
      Entries30To3FHandled(b);
    } else if b <= 0x4F {
      Entries40To4FHandled(b);
    } else if b <= 0x5F {
      Entries50To5FHandled(b);
    } else if b <= 0x6F {
      Entries60To6FHandled(b);
    } else if b <= 0x7F {
      Entries70To7FHandled(b);
    } else if b <= 0x8F {
      Entries80To8FHandled(b);
    } else if b <= 0x9F {
      Entries90To9FHandled(b);
    } else if b <= 0xAF {
      EntriesA0ToAFHandled(b);
    } else if b <= 0xBF {
      EntriesB0ToBFHandled(b);
    } else if b <= 0xCF {
      EntriesC0ToCFHandled(b);
    } else if b <= 0xDF {
      EntriesD0ToDFHandled(b);
    } else if b <= 0xEF {
      EntriesE0ToEFHandled(b);
    } else {
      EntriesF0ToFFHandled(b);
    }
  }

  // ---------------------------------------------------------------------
  // What the searches promise

  /** Only one entry holds a pair other than the `invalid` one. */
  lemma PairIsUnique(j: int, k: int)
    requires 0 <= j < 256 && 0 <= k < 256
    requires Table()[j].instruction != Invalid
    requires Matches(Table()[k], Table()[j].instruction, Table()[j].mode)
    ensures j == k
  {
    TableIndex(j);
    TableIndex(k);
    EntryEncoded(j as Byte);
    EntryEncoded(k as Byte);
  }

  /** The search for the `invalid` pair stops at entry 0x02. */
  lemma FirstInvalidIndex()
    ensures FindPair(Table(), Invalid, Implicit, 0) == Some(2)
  {
    var t := Table();
    TableIndex(0);
    TableIndex(1);
    TableIndex(2);
    assert Entry(0x00) == Row0(0x00) == Opcode(0x00, Brk, Implicit);
    assert Entry(0x01) == Row0(0x01) == Opcode(0x01, Ora, IndexedIndirect);
    assert Entry(0x02) == Row0(0x02) == Opcode(0x02, Invalid, Implicit);
    assert FindPair(t, Invalid, Implicit, 2) == Some(2);
    assert FindPair(t, Invalid, Implicit, 1) == Some(2);
  }

  /** `opcode(_:_:)` answers the byte `Encode` lists for the pair. */
  lemma OpcodeByteIsEncode(i: Instruction, m: AddressingMode)
    requires Listed(i, m)
    ensures Encode(i, m) == Some(OpcodeByte(i, m))
  {
    var k := FindPair(Table(), i, m, 0).value;
    TableIndex(k);
    EntryEncoded(k as Byte);
    if i == Invalid {
      FirstInvalidIndex();
      TableIndex(2);
    }
  }

  /** The first `invalid` entry, the one `opcode(.invalid, .implicit)` answers, is 0x02. */
  lemma FirstInvalidByte()
    ensures Listed(Invalid, Implicit) && OpcodeByte(Invalid, Implicit) == 0x02
  {
    TableIndex(2);
    FirstInvalidIndex();
  }

  /** `opcode(.nop, .implicit)` answers 0xEA. */
  lemma NopByte()
    ensures Listed(Nop, Implicit) && OpcodeByte(Nop, Implicit) == 0xEA
  {
    assert Entry(0xEA) == RowE(0xEA) == Opcode(0xEA, Nop, Implicit);
    OpcodeByteOfEntry(0xEA);
  }

  /**
   * Decoding a byte and encoding the entry's pair again gives the byte
   * back, for every byte whose entry is not `invalid`.
   */
  lemma OpcodeByteOfEntry(b: Byte)
    requires Entry(b).instruction != Invalid
    ensures Listed(Entry(b).instruction, Entry(b).mode)
    ensures OpcodeByte(Entry(b).instruction, Entry(b).mode) == b
  {
    var i, m := Entry(b).instruction, Entry(b).mode;
    TableIndex(b as int);
    var k := FindPair(Table(), i, m, 0).value;
    PairIsUnique(b as int, k);
  }

  /** Encoding a listed pair and decoding the byte gives an entry with that pair. */
  lemma LookupOfOpcodeByte(i: Instruction, m: AddressingMode)
    requires Listed(i, m)
    ensures Lookup(OpcodeByte(i, m)) == Some(Opcode(OpcodeByte(i, m), i, m))
  {
    var k := FindPair(Table(), i, m, 0).value;
    LookupFindsEntry(OpcodeByte(i, m));
    TableIndex(k);
  }

  /**
   * Every pair the table lists has a working handler for its mode unless
   * the instruction is a stub or only prints.
   */
  lemma ListedIsHandled(i: Instruction, m: AddressingMode)
    requires Listed(i, m) && !IsStub(i) && !OnlyPrints(i)
    ensures Acts(i, m)
  {
    var k :| 0 <= k < 256 && Matches(Table()[k], i, m);
    TableIndex(k);
    EntryHandled(k as Byte);
  }
}
