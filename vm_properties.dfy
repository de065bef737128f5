/**
 * What each instruction does to the state, and what the loop as a whole
 * keeps: the effect of every command on registers, memory, the flag and
 * the program counter (with everything else unchanged), the silent no-op
 * of an unknown command, the sticky flag, and how runs compose.
 */
module VmProperties {
  import opened Decoder
  import opened LittleEndian
  import opened Vm

  /** The state differs from `s` at most in register `r`. */
  predicate OtherRegistersUnchanged(s: State, s': State, r: nat)
    requires Valid(s) && Valid(s')
  {
    forall i :: 0 <= i < NumRegs && i != r ==> s'.registers[i] == s.registers[i]
  }

  /** The memory differs from that of `s` at most at address `a`. */
  predicate OtherCellsUnchanged(s: State, s': State, a: nat)
    requires Valid(s) && Valid(s')
  {
    forall i :: 0 <= i < MemSize && i != a ==> s'.memory[i] == s.memory[i]
  }

  /** The header byte at `pc` and the bytes up to `pc + len` are in memory. */
  predicate InstructionAt(s: State, len: nat)
    requires Valid(s)
  {
    s.pc + len < MemSize
  }

  /** INC r adds one to register r (wrapping at 32 bits), moves `pc` past
      its two bytes, and touches nothing else. */
  lemma StepInc(s: State)
    requires Valid(s) && InstructionAt(s, 1)
    requires CmdOf(s.memory[s.pc]) == CmdInc
    requires s.memory[s.pc + 1] < NumRegs
    ensures var r, t := s.memory[s.pc + 1] as nat, Step(s);
      && t.outcome == Continue
      && t.next.registers[r] == Wrap32(s.registers[r] as int + 1)
      && OtherRegistersUnchanged(s, t.next, r)
      && t.next.memory == s.memory
      && t.next.cmp == s.cmp
      && t.next.pc == s.pc + 2
  {
  }

  /** CMP r, v sets the flag exactly when register r (as unsigned) equals
      the little-endian immediate v, never clears it, and moves `pc` by 6. */
  lemma StepCmp(s: State)
    requires Valid(s) && InstructionAt(s, 5)
    requires CmdOf(s.memory[s.pc]) == CmdCmp
    requires s.memory[s.pc + 1] < NumRegs
    ensures var r, v, t := s.memory[s.pc + 1] as nat, ReadU32(s.memory, s.pc + 2), Step(s);
      && t.outcome == Continue
      && (AsUnsigned(s.registers[r]) == v ==> t.next.cmp == 1)
      && (AsUnsigned(s.registers[r]) != v ==> t.next.cmp == s.cmp)
      && t.next.registers == s.registers
      && t.next.memory == s.memory
      && t.next.pc == s.pc + 6
  {
  }

  /** JMP_NE a jumps to the little-endian address a exactly when the flag
      is 0, and otherwise moves `pc` past its five bytes; it changes
      nothing but `pc`. */
  lemma StepJmpNe(s: State)
    requires Valid(s) && InstructionAt(s, 4)
    requires CmdOf(s.memory[s.pc]) == CmdJmpNe
    ensures var t := Step(s);
      && t.outcome == Continue
      && (s.cmp == 0 ==> t.next.pc == ReadU32(s.memory, s.pc + 1))
      && (s.cmp != 0 ==> t.next.pc == s.pc + 5)
      && t.next.registers == s.registers
      && t.next.memory == s.memory
      && t.next.cmp == s.cmp
  {
  }

  /** With the flag set, JMP_NE reads no operand: it falls through even in
      the last four bytes of memory. */
  lemma StepJmpNeTaken(s: State)
    requires Valid(s) && s.pc < MemSize
    requires CmdOf(s.memory[s.pc]) == CmdJmpNe && s.cmp != 0
    ensures Step(s) == Transition(Continue, s.(pc := s.pc + 5))
  {
  }

  /** A taken JMP_NE to an address outside memory does not fault itself:
      it sets `pc` to the target, and the next fetch faults with it. */
  lemma JumpOutsideFaultsNext(s: State)
    requires Valid(s) && InstructionAt(s, 4)
    requires CmdOf(s.memory[s.pc]) == CmdJmpNe && s.cmp == 0
    requires ReadU32(s.memory, s.pc + 1) >= MemSize
    ensures var t := Step(s);
      && t.outcome == Continue
      && t.next == s.(pc := ReadU32(s.memory, s.pc + 1))
      && Step(t.next) == Stay(t.next, Faulted(AddressOutOfBounds(ReadU32(s.memory, s.pc + 1))))
  {
  }

  /** MOV submode 0 (TX_REG_2_REG): the operand byte's high nibble names
      the register read and its low nibble the register written. */
  lemma StepMovReg2Reg(s: State)
    requires Valid(s) && InstructionAt(s, 1)
    requires s.memory[s.pc] == EncodeHeader(CmdMov, TxReg2Reg)
    requires TxTypeOf(s.memory[s.pc + 1]) < NumRegs && CmdOf(s.memory[s.pc + 1]) < NumRegs
    ensures var from, to, t := TxTypeOf(s.memory[s.pc + 1]) as nat, CmdOf(s.memory[s.pc + 1]) as nat, Step(s);
      && t.outcome == Continue
      && t.next.registers[to] == s.registers[from]
      && OtherRegistersUnchanged(s, t.next, to)
      && t.next.memory == s.memory
      && t.next.cmp == s.cmp
      && t.next.pc == s.pc + 2
  {
    var from, to := TxTypeOf(s.memory[s.pc + 1]) as nat, CmdOf(s.memory[s.pc + 1]) as nat;
    DecodeEncodeHeader(CmdMov, TxReg2Reg);
    assert Step(s) == ExecMov(s, TxReg2Reg);
    assert ExecMov(s, TxReg2Reg) ==
      Transition(Continue, s.(registers := s.registers[to := s.registers[from]], pc := s.pc + 2));
  }

  /** MOV submode 1 (named TX_REG_2_MEM) loads memory[a] into register r. */
  lemma StepMovReg2Mem(s: State)
    requires Valid(s) && InstructionAt(s, 5)
    requires s.memory[s.pc] == EncodeHeader(CmdMov, TxReg2Mem)
    requires s.memory[s.pc + 1] < NumRegs && ReadU32(s.memory, s.pc + 2) < MemSize
    ensures var r, a, t := s.memory[s.pc + 1] as nat, ReadU32(s.memory, s.pc + 2), Step(s);
      && t.outcome == Continue
      && t.next.registers[r] == s.memory[a]
      && OtherRegistersUnchanged(s, t.next, r)
      && t.next.memory == s.memory
      && t.next.cmp == s.cmp
      && t.next.pc == s.pc + 6
  {
    DecodeEncodeHeader(CmdMov, TxReg2Mem);
  }

  /** MOV submode 2 (named TX_MEM_2_REG) stores register r, truncated to a
      byte, into memory[a]. */
  lemma StepMovMem2Reg(s: State)
    requires Valid(s) && InstructionAt(s, 5)
    requires s.memory[s.pc] == EncodeHeader(CmdMov, TxMem2Reg)
    requires s.memory[s.pc + 1] < NumRegs && ReadU32(s.memory, s.pc + 2) < MemSize
    ensures var r, a, t := s.memory[s.pc + 1] as nat, ReadU32(s.memory, s.pc + 2), Step(s);
      && t.outcome == Continue
      && t.next.memory[a] == s.registers[r] % 0x100
      && OtherCellsUnchanged(s, t.next, a)
      && t.next.registers == s.registers
      && t.next.cmp == s.cmp
      && t.next.pc == s.pc + 6
  {
    DecodeEncodeHeader(CmdMov, TxMem2Reg);
  }

  /** MOV submode 3 (TX_MEM_2_MEM) copies memory[src] to memory[d], the
      destination address coming first in the instruction. */
  lemma StepMovMem2Mem(s: State)
    requires Valid(s) && InstructionAt(s, 8)
    requires s.memory[s.pc] == EncodeHeader(CmdMov, TxMem2Mem)
    requires ReadU32(s.memory, s.pc + 1) < MemSize && ReadU32(s.memory, s.pc + 5) < MemSize
    ensures var d, src, t := ReadU32(s.memory, s.pc + 1), ReadU32(s.memory, s.pc + 5), Step(s);
      && t.outcome == Continue
      && t.next.memory[d] == s.memory[src]
      && OtherCellsUnchanged(s, t.next, d)
      && t.next.registers == s.registers
      && t.next.cmp == s.cmp
      && t.next.pc == s.pc + 9
  {
    DecodeEncodeHeader(CmdMov, TxMem2Mem);
  }

  /** A MOV whose address operand lies outside memory faults and changes
      nothing. */
  lemma StepMovAddressFault(s: State)
    requires Valid(s) && InstructionAt(s, 5)
    requires s.memory[s.pc] == EncodeHeader(CmdMov, TxMem2Reg)
    requires ReadU32(s.memory, s.pc + 2) >= MemSize
    ensures Step(s) == Stay(s, Faulted(AddressOutOfBounds(ReadU32(s.memory, s.pc + 2))))
  {
    DecodeEncodeHeader(CmdMov, TxMem2Reg);
  }

  /** Something the instruction at `pc` reads or writes lies out of range:
      the header itself, an operand byte, a register named by an operand,
      or a memory address a MOV reads or writes. A JMP_NE target is not
      among them: jumping outside memory succeeds, and the next fetch
      faults (see `JumpOutsideFaultsNext`). */
  predicate OutOfRange(s: State)
    requires Valid(s)
  {
    s.pc >= MemSize ||
    var ins, m := s.memory[s.pc], s.memory;
    var cmd, sub := CmdOf(ins), TxTypeOf(ins);
    ins != CmdHalt &&
    ((cmd == CmdInc && (!InstructionAt(s, 1) || m[s.pc + 1] >= NumRegs)) ||
     (cmd == CmdCmp && (!InstructionAt(s, 5) || m[s.pc + 1] >= NumRegs)) ||
     (cmd == CmdJmpNe && s.cmp == 0 && !InstructionAt(s, 4)) ||
     (cmd == CmdMov && sub == TxReg2Reg &&
       (!InstructionAt(s, 1) || TxTypeOf(m[s.pc + 1]) >= NumRegs || CmdOf(m[s.pc + 1]) >= NumRegs)) ||
     (cmd == CmdMov && (sub == TxReg2Mem || sub == TxMem2Reg) &&
       (!InstructionAt(s, 5) || m[s.pc + 1] >= NumRegs || ReadU32(m, s.pc + 2) >= MemSize)) ||
     (cmd == CmdMov && sub == TxMem2Mem &&
       (!InstructionAt(s, 8) || ReadU32(m, s.pc + 1) >= MemSize || ReadU32(m, s.pc + 5) >= MemSize)))
  }

  /** An instruction faults exactly when it reads or writes something out
      of range; with Step's own contract, the fault then names such an
      index and the state is left as it was. */
  lemma StepFaultsExactly(s: State)
    requires Valid(s)
    ensures Step(s).outcome.Faulted? <==> OutOfRange(s)
  {
    if s.pc < MemSize && s.memory[s.pc] != CmdHalt {
      var ins := s.memory[s.pc];
      if CmdOf(ins) == CmdMov {
        assert Step(s) == ExecMov(s, TxTypeOf(ins));
      }
    }
  }

  /** The halt test looks at the whole byte: a byte whose command nibble is
      CMD_HALT but whose high nibble is not zero does not halt; it does
      nothing and leaves `pc` where it is. */
  lemma HaltNeedsWholeByteZero(s: State)
    requires Valid(s) && s.pc < MemSize
    requires CmdOf(s.memory[s.pc]) == CmdHalt && s.memory[s.pc] != 0
    ensures Step(s) == Stay(s, Continue)
  {
  }

  /** At a no-op byte the loop spins forever: any amount of fuel is used up
      without the state changing at all. */
  lemma {:induction false} NoOpSpinsForever(s: State, fuel: nat)
    requires Valid(s) && s.pc < MemSize && IsNoOp(s.memory[s.pc])
    ensures Run(s, fuel) == RunResult(Continue, s, fuel)
    decreases fuel
  {
    if fuel > 0 {
      NoOpSpinsForever(s, fuel - 1);
    }
  }

  /** A run stops only where Step itself stops: at the halt byte or at an
      instruction that faults, in the state the machine is in. */
  lemma {:induction false} RunStopsWhereStepStops(s: State, fuel: nat)
    requires Valid(s) && Run(s, fuel).outcome != Continue
    ensures Step(Run(s, fuel).final) == Stay(Run(s, fuel).final, Run(s, fuel).outcome)
    decreases fuel
  {
    if Step(s).outcome == Continue {
      RunStopsWhereStepStops(Step(s).next, fuel - 1);
    }
  }

  /** Once set, the comparison flag stays set for the rest of any run. */
  lemma {:induction false} FlagIsSticky(s: State, fuel: nat)
    requires Valid(s) && s.cmp == 1
    ensures Run(s, fuel).final.cmp == 1
    decreases fuel
  {
    if fuel > 0 && Step(s).outcome == Continue {
      FlagIsSticky(Step(s).next, fuel - 1);
    }
  }

  /** A run that has stopped (halted or faulted) stays stopped with more
      fuel: its result does not depend on the fuel beyond what it used. */
  lemma {:induction false} RunStopsForGood(s: State, fuel: nat, more: nat)
    requires Valid(s) && Run(s, fuel).outcome != Continue
    ensures Run(s, fuel + more) == Run(s, fuel)
    decreases fuel
  {
    if Step(s).outcome == Continue {
      RunStopsForGood(Step(s).next, fuel - 1, more);
    }
  }

  /** Running for `a + b` iterations is running for `a`, then for `b` more
      from where the first run left off. */
  lemma {:induction false} RunSplits(s: State, a: nat, b: nat)
    requires Valid(s)
    ensures var r1 := Run(s, a);
      Run(s, a + b) ==
        if r1.outcome == Continue then
          var r2 := Run(r1.final, b);
          RunResult(r2.outcome, r2.final, a + r2.steps)
        else r1
    decreases a
  {
    if a > 0 && Step(s).outcome == Continue {
      RunSplits(Step(s).next, a - 1, b);
    }
  }

  /** Memory holds `k` instructions INC r, two bytes each, from address `p`;
      a header counts as INC whenever its low nibble decodes to INC. */
  predicate IncsAt(m: seq<Byte>, p: nat, r: nat, k: nat)
    requires |m| == MemSize
    decreases k
  {
    k == 0 || (p + 1 < MemSize && CmdOf(m[p]) == CmdInc && m[p + 1] == r && IncsAt(m, p + 2, r, k - 1))
  }

  /** INC r executed `k` times in a row increases register r by exactly
      `k`, modulo 2^32 in two's complement, moves `pc` past the `k`
      instructions, and changes nothing else. */
  lemma {:induction false} RunIncs(s: State, r: nat, k: nat)
    requires Valid(s) && r < NumRegs && IncsAt(s.memory, s.pc, r, k)
    ensures var f := Run(s, k);
      && f.outcome == Continue && f.steps == k
      && f.final.registers[r] == Wrap32(s.registers[r] as int + k)
      && OtherRegistersUnchanged(s, f.final, r)
      && f.final.memory == s.memory
      && f.final.cmp == s.cmp
      && f.final.pc == s.pc + 2 * k
    decreases k
  {
    if k > 0 {
      StepInc(s);
      var s1 := Step(s).next;
      RunIncs(s1, r, k - 1);
      WrapAdd(s.registers[r] as int + 1, k - 1);
      var f1 := Run(s1, k - 1);
      assert Run(s, k) == RunResult(f1.outcome, f1.final, f1.steps + 1);
    }
  }

  /** Wrapping before an addition makes no difference. */
  lemma WrapAdd(y: int, n: int)
    ensures Wrap32(Wrap32(y) as int + n) == Wrap32(y + n)
  {
    WrapCongruent(Wrap32(y) as int + n, y + n);
  }

  /** Wrap32 depends only on its argument modulo 2^32. */
  lemma WrapCongruent(a: int, b: int)
    requires (a - b) % Two32 == 0
    ensures Wrap32(a) == Wrap32(b)
  {
    var t := (a - b) / Two32;
    var q, r := (b + Two31) / Two32, (b + Two31) % Two32;
    assert a - b == t * Two32;
    assert a + Two31 == (q + t) * Two32 + r;
  }
}
