/**
 * The console: a 2 KiB RAM chip, and a CPU whose bus the console routes to
 * that chip. Starting the console runs the CPU for a cycle budget.
 */
module Console {
  import opened Registers
  import opened MemoryDevice
  import opened NesBus
  import opened Execution
  import opened CpuCore

  class Nes {
    const memory: Memory
    const cpu: Cpu

    /** The CPU's bus reaches the console's own RAM chip. */
    ghost predicate Valid()
      reads this, cpu, memory
    {
      cpu.memory == memory && cpu.Valid()
    }

    /** `init()`: 2 KiB of zeroed RAM and a CPU at its power-on values. */
    constructor ()
      ensures Valid() && fresh(memory) && fresh(cpu)
      ensures memory.size == 0x0800 && forall i | 0 <= i < 0x0800 :: memory.storage[i] == 0
      ensures cpu.registers == Init() && cpu.totalCycles == 0
    {
      var ram := new Memory(0x0800);
      memory := ram;
      cpu := new Cpu(ram);
    }

    /** `start(cycles:)`: the CPU's fetch-decode-execute loop, run to the budget. */
    method Start(cycles: int)
      requires Valid() && Safe(cpu.Snapshot(), cycles)
      modifies cpu, memory
      ensures Valid() && cpu.Snapshot() == Run(old(cpu.Snapshot()), cycles)
    {
      cpu.Execute(cycles);
    }
  }
}
