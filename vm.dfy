/**
 * The toy VM as a state machine over values: the state is the memory, the
 * seven registers, the program counter and the comparison flag, and Step
 * is one iteration of the fetch-decode-execute loop of `main`.
 *
 * The C code indexes memory and the registers without any check.  Here an
 * access outside `[0, MemSize)` or `[0, NumRegs)` is a fault that stops the
 * machine and leaves the state exactly as it was before the instruction.
 */
module Vm {
  import opened Decoder
  import opened LittleEndian

  /** MAIN_MEM_SIZE */
  const MemSize: nat := 0xffff

  /** NR_REGS */
  const NumRegs: nat := 7

  const Two31: int := 0x8000_0000

  /** The value of a C `int` register. */
  type Int32 = x: int | -0x8000_0000 <= x < 0x8000_0000

  /** Two's-complement wrap-around into an `int`: what `++registers[r]` does
      on the usual targets when the register holds INT_MAX. */
  function Wrap32(x: int): (r: Int32)
    ensures (x - r) % Two32 == 0
    ensures -Two31 <= x < Two31 ==> r == x
  {
    (x + Two31) % Two32 - Two31
  }

  /** The value an `int` takes when C converts it to `unsigned int`, as it
      does for the comparison of CMP. */
  function AsUnsigned(x: Int32): (w: Word)
    ensures 0 <= x ==> w == x
    ensures x < 0 ==> w == x + Two32
  {
    x % Two32
  }

  /** The value an `int` takes when it is stored into a `char` cell. */
  function Truncate8(x: Int32): (b: Byte)
    ensures (x - b) % 0x100 == 0
  {
    x % 0x100
  }

  datatype State = State(memory: seq<Byte>, registers: seq<Int32>, pc: nat, cmp: int)

  predicate Valid(s: State) {
    |s.memory| == MemSize && |s.registers| == NumRegs
  }

  datatype Fault =
    | AddressOutOfBounds(addr: nat)
    | RegisterOutOfBounds(index: nat)

  /** Why the loop does, or does not, go on after one iteration. */
  datatype Outcome = Continue | Halted | Faulted(fault: Fault)

  datatype Transition = Transition(outcome: Outcome, next: State)

  /** A fault is raised only for an index that is really out of range. */
  predicate Genuine(f: Fault) {
    match f
    case AddressOutOfBounds(a) => a >= MemSize
    case RegisterOutOfBounds(i) => i >= NumRegs
  }

  /** The machine stays where it is, with the given outcome. */
  function Stay(s: State, outcome: Outcome): (t: Transition) {
    Transition(outcome, s)
  }

  /** An operand byte lies past the end of memory: the first such byte is
      the one at MemSize. */
  function OperandFault(s: State): (t: Transition) {
    Stay(s, Faulted(AddressOutOfBounds(MemSize)))
  }

  /** The memory byte at `pc` is not zero but names no case of the `switch`
      (or is a MOV with submode 4 or more): nothing happens at all. */
  predicate IsNoOp(ins: Byte) {
    ins != CmdHalt &&
    (CmdOf(ins) == CmdHalt || CmdOf(ins) > CmdJmpNe ||
     (CmdOf(ins) == CmdMov && TxTypeOf(ins) > TxMem2Mem))
  }

  /** One iteration of the loop in `main`.  The loop's guard compares the
      whole byte at `pc` with CMD_HALT, so only the byte 0 halts. */
  function Step(s: State): (t: Transition)
    requires Valid(s)
    ensures Valid(t.next)
    ensures t.outcome != Continue ==> t.next == s
    ensures t.outcome == Halted <==> s.pc < MemSize && s.memory[s.pc] == CmdHalt
    ensures t.outcome.Faulted? ==> Genuine(t.outcome.fault)
    ensures t.next.cmp == s.cmp || t.next.cmp == 1
    ensures s.pc < MemSize && IsNoOp(s.memory[s.pc]) ==> t == Stay(s, Continue)
  {
    if s.pc >= MemSize then Stay(s, Faulted(AddressOutOfBounds(s.pc)))
    else
      var ins := s.memory[s.pc];
      if ins == CmdHalt then Stay(s, Halted)
      else if CmdOf(ins) == CmdInc then ExecInc(s)
      else if CmdOf(ins) == CmdCmp then ExecCmp(s)
      else if CmdOf(ins) == CmdMov then ExecMov(s, TxTypeOf(ins))
      else if CmdOf(ins) == CmdJmpNe then ExecJmpNe(s)
      else Stay(s, Continue)
  }

  /** INC r: operand byte r; `++registers[r]`. */
  function ExecInc(s: State): (t: Transition)
    requires Valid(s) && s.pc < MemSize
  {
    if s.pc + 1 >= MemSize then OperandFault(s)
    else
      var r := s.memory[s.pc + 1] as nat;
      if r >= NumRegs then Stay(s, Faulted(RegisterOutOfBounds(r)))
      else
        Transition(Continue, s.(registers := s.registers[r := Wrap32(s.registers[r] as int + 1)],
                                pc := s.pc + 2))
  }

  /** CMP r, v: operand byte r and a 4-byte immediate v; the flag is set
      when the register, converted to unsigned, equals v, and is otherwise
      left as it is. */
  function ExecCmp(s: State): (t: Transition)
    requires Valid(s) && s.pc < MemSize
  {
    if s.pc + 5 >= MemSize then OperandFault(s)
    else
      var r := s.memory[s.pc + 1] as nat;
      var v := ReadU32(s.memory, s.pc + 2);
      if r >= NumRegs then Stay(s, Faulted(RegisterOutOfBounds(r)))
      else
        Transition(Continue, s.(cmp := if AsUnsigned(s.registers[r]) == v then 1 else s.cmp,
                                pc := s.pc + 6))
  }

  /** JMP_NE a: when the flag is 0, jump to the 4-byte address a; otherwise
      skip the instruction without reading its operand. */
  function ExecJmpNe(s: State): (t: Transition)
    requires Valid(s) && s.pc < MemSize
  {
    if s.cmp == 0 then
      if s.pc + 4 >= MemSize then OperandFault(s)
      else Transition(Continue, s.(pc := ReadU32(s.memory, s.pc + 1)))
    else
      Transition(Continue, s.(pc := s.pc + 5))
  }

  /** MOV with transfer submode `sub`.  When several accesses are out of
      range, the fault names the leftmost one of the C assignment. */
  function ExecMov(s: State, sub: Nibble): (t: Transition)
    requires Valid(s) && s.pc < MemSize
  {
    if sub == TxReg2Reg then
      // operand byte: high nibble = register read, low nibble = register written
      if s.pc + 1 >= MemSize then OperandFault(s)
      else
        var regs := s.memory[s.pc + 1];
        var from, to := TxTypeOf(regs) as nat, CmdOf(regs) as nat;
        if to >= NumRegs then Stay(s, Faulted(RegisterOutOfBounds(to)))
        else if from >= NumRegs then Stay(s, Faulted(RegisterOutOfBounds(from)))
        else
          Transition(Continue, s.(registers := s.registers[to := s.registers[from]], pc := s.pc + 2))
    else if sub == TxReg2Mem then
      // registers[r] = memory[a]
      if s.pc + 5 >= MemSize then OperandFault(s)
      else
        var r := s.memory[s.pc + 1] as nat;
        var a := ReadU32(s.memory, s.pc + 2);
        if r >= NumRegs then Stay(s, Faulted(RegisterOutOfBounds(r)))
        else if a >= MemSize then Stay(s, Faulted(AddressOutOfBounds(a)))
        else
          Transition(Continue, s.(registers := s.registers[r := s.memory[a]], pc := s.pc + 6))
    else if sub == TxMem2Reg then
      // memory[a] = registers[r]
      if s.pc + 5 >= MemSize then OperandFault(s)
      else
        var r := s.memory[s.pc + 1] as nat;
        var a := ReadU32(s.memory, s.pc + 2);
        if a >= MemSize then Stay(s, Faulted(AddressOutOfBounds(a)))
        else if r >= NumRegs then Stay(s, Faulted(RegisterOutOfBounds(r)))
        else
          Transition(Continue, s.(memory := s.memory[a := Truncate8(s.registers[r])], pc := s.pc + 6))
    else if sub == TxMem2Mem then
      // memory[d] = memory[src], d read before src
      if s.pc + 8 >= MemSize then OperandFault(s)
      else
        var d := ReadU32(s.memory, s.pc + 1);
        var src := ReadU32(s.memory, s.pc + 5);
        if d >= MemSize then Stay(s, Faulted(AddressOutOfBounds(d)))
        else if src >= MemSize then Stay(s, Faulted(AddressOutOfBounds(src)))
        else
          Transition(Continue, s.(memory := s.memory[d := s.memory[src]], pc := s.pc + 9))
    else
      Stay(s, Continue)
  }

  /** The result of running the loop: why it stopped, the state it stopped
      in, and the number of instructions executed.  The outcome Continue
      means that the fuel ran out while the machine could go on. */
  datatype RunResult = RunResult(outcome: Outcome, final: State, steps: nat)

  /** The loop of `main`, bounded by `fuel` iterations (the halt test of the
      last iteration included).  The C loop has no bound. */
  function Run(s: State, fuel: nat): (r: RunResult)
    requires Valid(s)
    ensures Valid(r.final)
    ensures r.steps <= fuel
    ensures r.outcome == Continue <==> r.steps == fuel
    ensures r.outcome == Halted ==> r.final.pc < MemSize && r.final.memory[r.final.pc] == CmdHalt
    ensures s.cmp != 0 ==> r.final.cmp != 0
    decreases fuel
  {
    if fuel == 0 then RunResult(Continue, s, 0)
    else
      var t := Step(s);
      if t.outcome != Continue then RunResult(t.outcome, s, 0)
      else
        var r := Run(t.next, fuel - 1);
        RunResult(r.outcome, r.final, r.steps + 1)
  }

  /** The state `main` starts in: the program image loaded at address 0,
      the rest of memory, the registers, `pc` and `cmp` all zero. */
  function Boot(image: seq<Byte>): (s: State)
    requires |image| <= MemSize
    ensures Valid(s) && s.pc == 0 && s.cmp == 0
    ensures s.memory[..|image|] == image
    ensures forall i :: |image| <= i < MemSize ==> s.memory[i] == 0
    ensures forall i :: 0 <= i < NumRegs ==> s.registers[i] == 0
  {
    var s := State(seq(MemSize, i => if 0 <= i < |image| then image[i] else 0),
                   seq(NumRegs, i => 0), 0, 0);
    assert s.memory[..|image|] == image;
    s
  }
}
