/**
 * The interpreter as the C program runs it: memory and the registers are
 * arrays updated in place, `pc` and `cmp` are mutable fields, and `Run` is
 * the `while` loop of `main` with an iteration bound.  Every method is
 * proved to do what the value-level semantics of module Vm says.
 */
module Interpreter {
  import opened Decoder
  import opened LittleEndian
  import opened Vm

  class Machine {
    var memory: array<Byte>
    var registers: array<Int32>
    var pc: nat
    var cmp: int

    ghost predicate Valid()
      reads this
    {
      memory.Length == MemSize && registers.Length == NumRegs
    }

    /** The machine's state as a value. */
    ghost function State(): (st: State)
      reads this, memory, registers
    {
      Vm.State(memory[..], registers[..], pc, cmp)
    }

    /** Memory preloaded with `image`, everything else zero. */
    constructor (image: seq<Byte>)
      requires |image| <= MemSize
      ensures Valid() && fresh(memory) && fresh(registers)
      ensures State() == Boot(image)
    {
      memory := new Byte[MemSize](i => if 0 <= i < |image| then image[i] else 0);
      registers := new Int32[NumRegs](i => 0);
      pc, cmp := 0, 0;
      new;
      assert memory[..] == Boot(image).memory;
      assert registers[..] == Boot(image).registers;
    }

    /** The 4-byte little-endian word at `p`. */
    method ReadWord(p: nat) returns (w: Word)
      requires Valid() && p + 4 <= memory.Length
      ensures w == ReadU32(memory[..], p)
    {
      w := memory[p] as int + 0x100 * memory[p + 1] as int + 0x1_0000 * memory[p + 2] as int
        + 0x100_0000 * memory[p + 3] as int;
    }

    /** One iteration of the loop. */
    method Step() returns (outcome: Outcome)
      requires Valid()
      modifies this`pc, this`cmp, memory, registers
      ensures Valid()
      ensures Vm.Step(old(State())) == Transition(outcome, State())
    {
      if pc >= MemSize {
        return Faulted(AddressOutOfBounds(pc));
      }
      var ins := memory[pc];
      if ins == CmdHalt {
        return Halted;
      }
      var cmd := CmdOf(ins);
      if cmd == CmdInc {
        outcome := Inc();
      } else if cmd == CmdCmp {
        outcome := Compare();
      } else if cmd == CmdMov {
        outcome := Move(TxTypeOf(ins));
      } else if cmd == CmdJmpNe {
        outcome := JumpIfNotEqual();
      } else {
        outcome := Continue;
      }
    }

    method Inc() returns (outcome: Outcome)
      requires Valid() && pc < MemSize
      modifies this`pc, registers
      ensures Valid()
      ensures ExecInc(old(State())) == Transition(outcome, State())
    {
      if pc + 1 >= MemSize {
        return Faulted(AddressOutOfBounds(MemSize));
      }
      var dest := memory[pc + 1] as nat;
      if dest >= NumRegs {
        return Faulted(RegisterOutOfBounds(dest));
      }
      registers[dest] := Wrap32(registers[dest] as int + 1);
      pc := pc + 2;
      outcome := Continue;
    }

    method Compare() returns (outcome: Outcome)
      requires Valid() && pc < MemSize
      modifies this`pc, this`cmp
      ensures Valid()
      ensures ExecCmp(old(State())) == Transition(outcome, State())
    {
      if pc + 5 >= MemSize {
        return Faulted(AddressOutOfBounds(MemSize));
      }
      var dest := memory[pc + 1] as nat;
      var value := ReadWord(pc + 2);
      if dest >= NumRegs {
        return Faulted(RegisterOutOfBounds(dest));
      }
      if AsUnsigned(registers[dest]) == value {
        cmp := 1;
      }
      pc := pc + 6;
      outcome := Continue;
    }

    method JumpIfNotEqual() returns (outcome: Outcome)
      requires Valid() && pc < MemSize
      modifies this`pc
      ensures Valid()
      ensures ExecJmpNe(old(State())) == Transition(outcome, State())
    {
      if cmp == 0 {
        if pc + 4 >= MemSize {
          return Faulted(AddressOutOfBounds(MemSize));
        }
        pc := ReadWord(pc + 1);
      } else {
        pc := pc + 5;
      }
      outcome := Continue;
    }

    /** MOV with transfer submode `sub`; a submode past TX_MEM_2_MEM does
        nothing. */
    method Move(sub: Nibble) returns (outcome: Outcome)
      requires Valid() && pc < MemSize
      modifies this`pc, memory, registers
      ensures Valid()
      ensures ExecMov(old(State()), sub) == Transition(outcome, State())
    {
      if sub == TxReg2Reg {
        outcome := MoveRegister();
      } else if sub == TxReg2Mem {
        outcome := Load();
      } else if sub == TxMem2Reg {
        outcome := Store();
      } else if sub == TxMem2Mem {
        outcome := CopyCell();
      } else {
        outcome := Continue;
      }
    }

    /** TX_REG_2_REG: `registers[lo] = registers[hi]` of the operand byte. */
    method MoveRegister() returns (outcome: Outcome)
      requires Valid() && pc < MemSize
      modifies this`pc, registers
      ensures Valid()
      ensures ExecMov(old(State()), TxReg2Reg) == Transition(outcome, State())
    {
      if pc + 1 >= MemSize {
        return Faulted(AddressOutOfBounds(MemSize));
      }
      var regs := memory[pc + 1];
      var from, to := TxTypeOf(regs) as nat, CmdOf(regs) as nat;
      if to >= NumRegs {
        return Faulted(RegisterOutOfBounds(to));
      } else if from >= NumRegs {
        return Faulted(RegisterOutOfBounds(from));
      }
      registers[to] := registers[from];
      pc := pc + 2;
      outcome := Continue;
    }

    /** TX_REG_2_MEM: `registers[r] = memory[a]`. */
    method Load() returns (outcome: Outcome)
      requires Valid() && pc < MemSize
      modifies this`pc, registers
      ensures Valid()
      ensures ExecMov(old(State()), TxReg2Mem) == Transition(outcome, State())
    {
      if pc + 5 >= MemSize {
        return Faulted(AddressOutOfBounds(MemSize));
      }
      var r := memory[pc + 1] as nat;
      var a := ReadWord(pc + 2);
      if r >= NumRegs {
        return Faulted(RegisterOutOfBounds(r));
      } else if a >= MemSize {
        return Faulted(AddressOutOfBounds(a));
      }
      registers[r] := memory[a];
      pc := pc + 6;
      outcome := Continue;
    }

    /** TX_MEM_2_REG: `memory[a] = registers[r]`, truncated to a byte. */
    method Store() returns (outcome: Outcome)
      requires Valid() && pc < MemSize
      modifies this`pc, memory
      ensures Valid()
      ensures ExecMov(old(State()), TxMem2Reg) == Transition(outcome, State())
    {
      if pc + 5 >= MemSize {
        return Faulted(AddressOutOfBounds(MemSize));
      }
      var r := memory[pc + 1] as nat;
      var a := ReadWord(pc + 2);
      if a >= MemSize {
        return Faulted(AddressOutOfBounds(a));
      } else if r >= NumRegs {
        return Faulted(RegisterOutOfBounds(r));
      }
      memory[a] := Truncate8(registers[r]);
      pc := pc + 6;
      outcome := Continue;
    }

    /** TX_MEM_2_MEM: `memory[d] = memory[src]`. */
    method CopyCell() returns (outcome: Outcome)
      requires Valid() && pc < MemSize
      modifies this`pc, memory
      ensures Valid()
      ensures ExecMov(old(State()), TxMem2Mem) == Transition(outcome, State())
    {
      if pc + 8 >= MemSize {
        return Faulted(AddressOutOfBounds(MemSize));
      }
      var d := ReadWord(pc + 1);
      var src := ReadWord(pc + 5);
      if d >= MemSize {
        return Faulted(AddressOutOfBounds(d));
      } else if src >= MemSize {
        return Faulted(AddressOutOfBounds(src));
      }
      memory[d] := memory[src];
      pc := pc + 9;
      outcome := Continue;
    }

    /** The loop of `main`, for at most `fuel` iterations: it stops at the
        halt byte, at a fault, or when the fuel is used up. */
    method Run(fuel: nat) returns (outcome: Outcome, steps: nat)
      requires Valid()
      modifies this`pc, this`cmp, memory, registers
      ensures Valid()
      ensures Vm.Run(old(State()), fuel) == RunResult(outcome, State(), steps)
    {
      steps := 0;
      while steps < fuel
        invariant Valid() && steps <= fuel
        invariant var rest := Vm.Run(State(), fuel - steps);
          Vm.Run(old(State()), fuel) == RunResult(rest.outcome, rest.final, steps + rest.steps)
      {
        ghost var before := State();
        var o := Step();
        if o != Continue {
          assert Vm.Run(before, fuel - steps) == RunResult(o, before, 0);
          return o, steps;
        }
        ghost var rest := Vm.Run(State(), fuel - steps - 1);
        assert Vm.Run(before, fuel - steps) == RunResult(rest.outcome, rest.final, rest.steps + 1);
        steps := steps + 1;
      }
      outcome := Continue;
    }
  }
}
