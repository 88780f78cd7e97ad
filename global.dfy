/**
 * The integer types the whole emulator shares. A byte is an 8-bit pattern,
 * so the wrapping `&+` and `&-` and the bit operations on bytes are
 * bit-vector operations. An address, which is also the type of a 16-bit
 * word, is a number below 0x10000: Swift's `+` and `-` on addresses stop the
 * program when they leave that range, and Dafny checks that no computation
 * in the model does.
 */
module Global {

  type Byte = bv8

  newtype Address = x: int | 0 <= x < 0x1_0000

  /** `Bool.byteValue`: 1 for true, 0 for false. */
  function ByteValue(b: bool): (r: Byte)
    ensures r <= 1 && (r == 1 <==> b)
  {
    if b then 1 else 0
  }

  /** `UInt8(w & 0xFF)`: the low byte of a word. */
  function Low(w: Address): Byte
  {
    ((w as bv16) & 0xFF) as Byte
  }

  /** `UInt8(w >> 8)`: the high byte of a word. */
  function High(w: Address): Byte
  {
    ((w as bv16) >> 8) as Byte
  }

  /** `Word(low) | Word(high) << 8`: two bytes joined into a little-endian word. */
  function Combine(low: Byte, high: Byte): Address
  {
    ((low as bv16) | ((high as bv16) << 8)) as Address
  }

  /** Splitting a joined word gives back its two bytes. */
  lemma SplitCombine(low: Byte, high: Byte)
    ensures Low(Combine(low, high)) == low
    ensures High(Combine(low, high)) == high
  {
    WordExact((low as bv16) | ((high as bv16) << 8));
  }

  /** Joining the two bytes of a word gives back the word. */
  lemma CombineSplit(w: Address)
    ensures Combine(Low(w), High(w)) == w
  {
    var b := w as bv16;
    assert ((b & 0xFF) as Byte as bv16) | (((b >> 8) as Byte as bv16) << 8) == b;
    AddressExact(w);
  }

  /** A 16-bit pattern survives the trip to an address and back. */
  lemma WordExact(b: bv16)
    ensures (b as Address) as bv16 == b
  {
  }

  /** An address survives the trip to a 16-bit pattern and back. */
  lemma AddressExact(w: Address)
    ensures (w as bv16) as Address == w
  {
    assert w as int % 0x1_0000 == w as int;
  }

  /** Decrementing a non-zero byte lowers its numeric value by one. */
  lemma DecrementExact(b: Byte)
    requires b >= 1
    ensures (b - 1) as int == b as int - 1
  {
  }

  /** An index below 256 survives the conversion to a byte and back. */
  lemma IndexExact(k: int)
    requires 0 <= k < 256
    ensures (k as Byte) as int == k
  {
    assert k % 256 == k;
  }
}
