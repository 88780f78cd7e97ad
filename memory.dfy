/**
 * The RAM chip: a fixed number of bytes, all zero after creation and after
 * a reset. Reads and writes are guarded by a bounds check that compares with
 * `<=` rather than `<`, so address `size` itself passes the guard and then
 * indexes one past the end of the storage, which stops the program.
 */
module MemoryDevice {
  import opened Global

  class Memory {
    const size: int
    var storage: seq<Byte>

    ghost predicate Valid()
      reads this
    {
      size > 0 && |storage| == size
    }

    /** A memory of `size` zero bytes; a size of zero or less is a fatal error. */
    constructor (size: int)
      requires size > 0
      ensures Valid() && this.size == size
      ensures forall i | 0 <= i < size :: storage[i] == 0
    {
      this.size := size;
      storage := seq(size, _ => 0 as Byte);
    }

    /** Every byte back to zero; the size is unchanged. */
    method Reset()
      requires Valid()
      modifies this
      ensures Valid()
      ensures forall i | 0 <= i < size :: storage[i] == 0
    {
      storage := seq(size, _ => 0 as Byte);
    }

    /**
     * The stored byte below `size`, zero above it. Address `size` passes the
     * `<=` guard and is out of range, so callers must avoid it.
     */
    function ReadByte(address: Address): (r: Byte)
      reads this
      requires Valid()
      requires address as int != size
      ensures address as int < size ==> r == storage[address]
      ensures address as int > size ==> r == 0
    {
      if address as int <= size then storage[address] else 0
    }

    /**
     * Stores `data` below `size` and ignores addresses above it, with the
     * same out-of-range address `size` as `ReadByte`.
     */
    method WriteByte(data: Byte, address: Address)
      requires Valid()
      requires address as int != size
      modifies this
      ensures Valid()
      ensures address as int < size ==> storage == old(storage)[address as int := data]
      ensures address as int > size ==> storage == old(storage)
    {
      if address as int <= size {
        storage := storage[address := data];
      }
    }
  }
}
