/**
 * The console's bus routing: addresses 0x0000 to 0x01FF go to the RAM chip,
 * every other read answers zero and every other write is dropped. `Peek` and
 * `Poke` are this routing on a snapshot of the RAM's bytes; `Read` and `Write`
 * are the same routing applied to the memory object itself.
 */
module NesBus {
  import opened Global
  import opened MemoryDevice

  /** First address that is no longer routed to RAM. */
  const RoutedLimit: Address := 0x0200

  /** The bytes of a RAM chip large enough for the routed window. */
  type Ram = s: seq<Byte> | |s| >= 0x0200 witness seq(0x0200, _ => 0)

  /** A memory the bus can route to: valid, and covering the whole routed window. */
  ghost predicate Routable(m: Memory)
    reads m
  {
    m.Valid() && m.size >= RoutedLimit as int
  }

  /** The byte a bus read answers for a RAM snapshot. */
  function Peek(ram: Ram, address: Address): Byte
  {
    if address < RoutedLimit then ram[address] else 0
  }

  /** The RAM snapshot after a bus write. */
  function Poke(ram: Ram, data: Byte, address: Address): Ram
  {
    if address < RoutedLimit then ram[address := data] else ram
  }

  /**
   * The console's read delegate. Routed addresses never reach the memory's
   * out-of-range address, because the memory is at least as large as the window.
   */
  function Read(m: Memory, address: Address): (r: Byte)
    reads m
    requires Routable(m)
    ensures address < RoutedLimit ==> r == m.storage[address]
    ensures address >= RoutedLimit ==> r == 0
    ensures r == Peek(m.storage, address)
  {
    if address < RoutedLimit then m.ReadByte(address) else 0
  }

  /** The console's write delegate: routed addresses change one byte, others nothing. */
  method Write(m: Memory, data: Byte, address: Address)
    requires Routable(m)
    modifies m
    ensures Routable(m)
    ensures m.storage == Poke(old(m.storage), data, address)
  {
    if address < RoutedLimit {
      m.WriteByte(data, address);
    }
  }

  /**
   * A write followed by a read: the read sees the written byte exactly when
   * it is the same routed address, and the earlier contents otherwise.
   */
  lemma PeekAfterPoke(ram: Ram, data: Byte, written: Address, read: Address)
    ensures Peek(Poke(ram, data, written), read) ==
            if read == written && written < RoutedLimit then data else Peek(ram, read)
  {
  }
}
