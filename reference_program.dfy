/**
 * The program image built into `memory`: store R0 into memory[19], then
 * count R0 up with INC / CMP R0, 10 / JMP_NE back to the INC until the flag
 * is set, and halt at address 19.  `main` prints R0, which is 10.
 */
module ReferenceProgram {
  import opened Decoder
  import opened LittleEndian
  import opened Vm
  import opened VmProperties
  import Interpreter

  const Reg0: Byte := 0

  /** The initialised part of `memory`; cells 20 and up are zero. */
  const Image: seq<Byte> := [
    EncodeHeader(CmdMov, TxMem2Reg), Reg0, 19, 0, 0, 0,  // memory[19] = registers[R0]
    CmdInc, Reg0,                                         // 6:  registers[R0]++
    CmdCmp, Reg0, 10, 0, 0, 0,                            // 8:  registers[R0] == 10 ?
    CmdJmpNe, 6, 0, 0, 0,                                 // 14: jump back to the INC
    CmdHalt                                               // 19
  ]

  function Start(): (s: State)
    ensures Valid(s)
  {
    Boot(Image)
  }

  /** Memory holding the program image at addresses 0 to 19. */
  predicate Loaded(m: seq<Byte>) {
    |m| == MemSize && HoldsImage(m, |Image|)
  }

  /** The first `n` cells of `m` hold those of the image. */
  predicate HoldsImage(m: seq<Byte>, n: nat)
    requires n <= |Image| <= |m|
  {
    n == 0 || (m[n - 1] == Image[n - 1] && HoldsImage(m, n - 1))
  }

  lemma {:induction false} HoldsImageCells(m: seq<Byte>, n: nat)
    requires n <= |Image| <= |m| && HoldsImage(m, n)
    ensures forall i :: 0 <= i < n ==> m[i] == Image[i]
  {
    if n > 0 {
      HoldsImageCells(m, n - 1);
    }
  }

  /** The cells of a loaded memory that the loop reads. */
  lemma LoadedCells(m: seq<Byte>)
    requires Loaded(m)
    ensures m[6] == CmdInc && m[7] == Reg0 && m[8] == CmdCmp && m[9] == Reg0
    ensures m[14] == CmdJmpNe && m[19] == CmdHalt
    ensures ReadU32(m, 10) == 10 && ReadU32(m, 15) == 6
  {
    HoldsImageCells(m, |Image|);
  }

  /** The registers with R0 holding `k` and every other register zero. */
  function Counter(k: nat): (regs: seq<Int32>)
    requires k <= 10
  {
    [k, 0, 0, 0, 0, 0, 0]
  }

  /** The state at the INC, with R0 == k and the flag clear. */
  function LoopHead(m: seq<Byte>, k: nat): (s: State)
    requires Loaded(m) && k <= 10
    ensures Valid(s)
  {
    State(m, Counter(k), 6, 0)
  }

  /** The state in which the program halts. */
  function Final(m: seq<Byte>): (s: State)
    requires Loaded(m)
    ensures Valid(s)
  {
    State(m, Counter(10), 19, 1)
  }

  /** The state `main` starts in, over a loaded memory. */
  function Begin(m: seq<Byte>): (s: State)
    requires Loaded(m)
    ensures Valid(s)
  {
    State(m, Counter(0), 0, 0)
  }

  /** Booting the image gives a loaded memory and the state Begin. */
  lemma StartIsBegin()
    ensures Loaded(Start().memory)
    ensures Start() == Begin(Start().memory)
  {
    var m := Start().memory;
    var n := 0;
    while n < |Image|
      invariant n <= |Image| && HoldsImage(m, n)
    {
      assert m[n] == m[..|Image|][n];
      n := n + 1;
    }
    assert Start().registers == Counter(0);
  }

  /** The first instruction stores R0 (zero) into memory[19], which is
      already zero, and moves on to the loop. */
  lemma FirstStep(m: seq<Byte>)
    requires Loaded(m)
    ensures Step(Begin(m)) == Transition(Continue, LoopHead(m, 0))
  {
    HoldsImageCells(m, |Image|);
    assert m[0] == EncodeHeader(CmdMov, TxMem2Reg) && m[1] == Reg0;
    DecodeEncodeHeader(CmdMov, TxMem2Reg);
    assert ReadU32(m, 2) == 19;
    assert m[19 := Truncate8(0)] == m;
  }

  /** One round of the loop from R0 == k: INC, CMP, JMP_NE. */
  lemma LoopRound(m: seq<Byte>, k: nat, fuel: nat)
    requires Loaded(m) && k < 9 && fuel >= 3
    ensures var r := Run(LoopHead(m, k + 1), fuel - 3);
      Run(LoopHead(m, k), fuel) == RunResult(r.outcome, r.final, r.steps + 3)
  {
    var s0 := LoopHead(m, k);
    var s1 := s0.(registers := Counter(k + 1), pc := 8);
    var s2 := s1.(pc := 14);
    LoadedCells(m);
    assert Step(s0) == Transition(Continue, s1);
    assert Step(s1) == Transition(Continue, s2);
    assert Step(s2) == Transition(Continue, LoopHead(m, k + 1));
    var r2 := Run(s2, fuel - 2);
    assert Run(s1, fuel - 1) == RunResult(r2.outcome, r2.final, r2.steps + 1);
  }

  /** The last round: R0 becomes 10, the flag is set, JMP_NE falls through
      to the halt byte. */
  lemma LastRound(m: seq<Byte>, fuel: nat)
    requires Loaded(m) && fuel >= 4
    ensures Run(LoopHead(m, 9), fuel) == RunResult(Halted, Final(m), 3)
  {
    var s0 := LoopHead(m, 9);
    var s1 := s0.(registers := Counter(10), pc := 8);
    var s2 := s1.(pc := 14, cmp := 1);
    LoadedCells(m);
    assert Step(s0) == Transition(Continue, s1);
    assert Step(s1) == Transition(Continue, s2);
    assert Step(s2) == Transition(Continue, Final(m));
    assert Step(Final(m)).outcome == Halted;
    assert Run(s2, fuel - 2) == RunResult(Halted, Final(m), 1);
  }

  /** From the loop head with R0 == k, the program halts after 3 * (10 - k)
      more instructions, given fuel for them and the final halt test. */
  lemma {:induction false} FromLoopHead(m: seq<Byte>, k: nat, fuel: nat)
    requires Loaded(m) && k < 10 && fuel > 3 * (10 - k)
    ensures Run(LoopHead(m, k), fuel) == RunResult(Halted, Final(m), 3 * (10 - k))
    decreases 10 - k
  {
    if k == 9 {
      LastRound(m, fuel);
    } else {
      LoopRound(m, k, fuel);
      FromLoopHead(m, k + 1, fuel - 3);
    }
  }

  /** From the start over any loaded memory, the program halts after 31
      instructions, given fuel for them and the final halt test. */
  lemma FromBegin(m: seq<Byte>, fuel: nat)
    requires Loaded(m) && fuel >= 32
    ensures Run(Begin(m), fuel) == RunResult(Halted, Final(m), 31)
  {
    FirstStep(m);
    FromLoopHead(m, 0, fuel - 1);
  }

  /** The reference program halts at address 19 after 31 instructions, with
      10 in R0 and the flag set, when the loop may run 32 iterations or more
      (the last one is the halt test). */
  lemma ReferenceProgramHalts(fuel: nat)
    requires fuel >= 32
    ensures Run(Start(), fuel) == RunResult(Halted, State(Start().memory, Counter(10), 19, 1), 31)
    ensures Run(Start(), fuel).final.registers[0] == 10
  {
    StartIsBegin();
    FromBegin(Start().memory, fuel);
  }

  /** With 31 iterations it has not halted yet: the halt test is the 32nd. */
  lemma ReferenceProgramNeeds32()
    ensures Run(Start(), 31).outcome == Continue
  {
    if Run(Start(), 31).outcome != Continue {
      RunStopsForGood(Start(), 31, 1);
      ReferenceProgramHalts(32);
    }
  }

  /** `main`: load the image, run the loop until it halts, and report R0. */
  method RunReferenceProgram() returns (outcome: Outcome, steps: nat, output: Int32)
    ensures outcome == Halted && steps == 31 && output == 10
  {
    var machine := new Interpreter.Machine(Image);
    outcome, steps := machine.Run(32);
    ReferenceProgramHalts(32);
    output := machine.registers[0];
  }
}
