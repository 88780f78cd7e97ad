/**
 * The fetch-decode-execute loop of `execute(cycles:)`: while the cycle
 * counter is below the budget, fetch an opcode byte (one cycle), look it
 * up in the opcode table and call the handler of its instruction and
 * mode. The count the handler reports is dropped; only the bus cycles the
 * fetch and the handler spend move the counter. When the table has no
 * entry for the byte the loop stops, which the table never lets happen.
 */
module Execution {
  import opened Global
  import opened NesBus
  import opened Machine
  import opened Instructions
  import opened Opcodes

  /** What one pass of the loop body leaves: the loop goes on, or it stopped at the guard. */
  datatype Outcome = Running(s: State) | Halted(s: State)

  /** One pass of the loop body does not trap: the fetch stays in range and the handler's traps do not fire. */
  predicate CanStep(s: State)
  {
    s.regs.pc < 0xFFFF &&
    var (f, b) := Fetch(s);
    match Lookup(b)
    case None => true
    case Some(o) => CanCall(f, o.instruction, o.mode)
  }

  /** One pass of the loop body. */
  function Step(s: State): (r: Outcome)
    requires CanStep(s)
    ensures s.cycles < r.s.cycles
  {
    var (f, b) := Fetch(s);
    match Lookup(b)
    case None => Halted(f)
    case Some(o) => Running(Call(f, o.instruction, o.mode).s)
  }

  /** A pass of the loop body runs the handler of the table entry of the byte at the program counter. */
  lemma StepRunsEntry(s: State)
    requires CanStep(s)
    ensures var o := Entry(Peek(s.ram, s.regs.pc));
            && CanCall(Fetch(s).0, o.instruction, o.mode)
            && Step(s) == Running(Call(Fetch(s).0, o.instruction, o.mode).s)
  {
    var (f, b) := Fetch(s);
    LookupFindsEntry(b);
  }

  /** A pass of the loop body never stops at the guard: every byte has a table entry. */
  lemma StepRuns(s: State)
    requires CanStep(s)
    ensures Step(s).Running?
  {
    LookupFindsEntry(Fetch(s).1);
  }

  /**
   * A pass of the loop body keeps bit 5 of the status byte unless the
   * instruction at the program counter is `plp`.
   */
  lemma StepKeepsBit5(s: State)
    requires CanStep(s) && Entry(Peek(s.ram, s.regs.pc)).instruction != Plp
    ensures Step(s).s.regs.p & 0x20 == s.regs.p & 0x20
  {
    StepRunsEntry(s);
  }

  /** No pass of the loop body up to the budget traps. */
  predicate Safe(s: State, budget: int)
    decreases budget - s.cycles
  {
    s.cycles < budget ==>
      CanStep(s) &&
      match Step(s)
      case Halted(_) => true
      case Running(t) => Safe(t, budget)
  }

  /** `execute(cycles:)`: the state when the loop ends. */
  function Run(s: State, budget: int): (r: State)
    requires Safe(s, budget)
    ensures s.cycles <= r.cycles
    decreases budget - s.cycles
  {
    if s.cycles >= budget then s
    else
      match Step(s)
      case Halted(t) => t
      case Running(t) => Run(t, budget)
  }

  /** The guard never stops the loop, so the loop ends with the counter at the budget or past it. */
  lemma {:induction false} RunReachesBudget(s: State, budget: int)
    requires Safe(s, budget)
    ensures Run(s, budget).cycles >= budget
    decreases budget - s.cycles
  {
    if s.cycles < budget {
      StepRuns(s);
      RunReachesBudget(Step(s).s, budget);
    }
  }

  /** A budget the counter has already reached leaves the state alone. */
  lemma RunAtBudget(s: State, budget: int)
    requires s.cycles >= budget
    ensures Safe(s, budget) && Run(s, budget) == s
  {
  }

  /**
   * Running to a smaller budget and then on to a larger one is running to
   * the larger one: the loop resumes where it stopped.
   */
  lemma {:induction false} RunResumes(s: State, first: int, second: int)
    requires first <= second && Safe(s, second)
    ensures Safe(s, first) && Safe(Run(s, first), second)
    ensures Run(Run(s, first), second) == Run(s, second)
    decreases second - s.cycles
  {
    if s.cycles < first {
      StepRuns(s);
      RunResumes(Step(s).s, first, second);
    }
  }
}
