# toyvm in Dafny

toyvm is a virtual machine written in C, in a single file `main.c`. It has:

- 65535 bytes of memory (`MAIN_MEM_SIZE`);
- seven `int` registers;
- an unsigned program counter `pc`;
- a comparison flag `cmp` that can only be set, never cleared.

The machine knows five commands: HALT, INC, MOV, CMP and JMP_NE. `main` runs a fetch-decode-execute loop over a program image compiled into `memory`, then prints register 0.

This project models that core and proves properties of the model. It has six modules, one per concern:

| module | file | what it holds |
|---|---|---|
| `Decoder` | `decoder.dfy` | Instruction header bytes: the command is the low nibble (`CMD_OF`) and the MOV submode is the high nibble (`TX_TYPE_OF`). Lemmas show these agree with the C masks and shift on the byte's bits. |
| `LittleEndian` | `little_endian.dfy` | The 4-byte little-endian operand reads of CMP, MOV and JMP_NE, with their inverse `EncodeU32`. |
| `Vm` | `vm.dfy` | The machine state as a value; `Step`, one iteration of the loop of `main`; `Run`, the loop bounded by fuel; `Boot`, the initial state. |
| `VmProperties` | `vm_properties.dfy` | The effect of each instruction, the quirks of the loop, and how runs compose. |
| `Interpreter` | `machine.dfy` | The loop as the C program runs it, as a class `Machine`. Memory and registers are arrays updated in place, and `pc` and `cmp` are fields. Every method is proved equal to the value-level semantics of `Vm`. |
| `ReferenceProgram` | `reference_program.dfy` | The program image of `main.c`. It halts after 31 instructions with 10 in register 0. |

## Semantics

`Step` follows the C code branch by branch:

- **Halt test.** The loop stops only when the whole byte at `pc` is 0. A byte with command nibble 0 and a non-zero high nibble is not a halt.
- **No-ops.** A command outside the switch, or a MOV with submode 4 or more, does nothing. It does not advance `pc`, so the machine spins on it forever.
- **MOV submode names are inverted.** Submode 1 (`TX_REG_2_MEM`) loads `registers[r] = memory[a]`. Submode 2 (`TX_MEM_2_REG`) stores `memory[a] = registers[r]`.
- **Submode 0 (register to register).** It copies the register named by the operand byte's high nibble into the register named by its low nibble.
- **Submode 3 (memory to memory).** The destination address comes first.
- **CMP.** It compares the register, converted to `unsigned int` as C does, with the immediate. It sets the flag on equality and otherwise leaves the flag as it was.
- **JMP_NE with the flag set.** It skips its five bytes without reading the operand.

Choices the C code leaves open:

- **INC overflow.** INC wraps around at 32 bits in two's complement (`Wrap32`).
- **Stores.** Storing a register into memory keeps its value modulo 256 (`Truncate8`).
- **Bytes.** A memory byte is 0..255 (`char` taken as unsigned).

The C code indexes memory and the registers without any check. In the model, an index out of range is a fault; see `Vm.Fault` and the first line of "Left out". A faulting instruction leaves the whole state unchanged. When several accesses of one C statement are out of range, `Vm.ExecMov` checks them left to right, so the fault names the leftmost one; this order is part of the definition only, and no contract states it.

Two comments in the image of `main.c` do not describe its bytes; the model follows the bytes:

- main.c:123 says `registers[REG_0] = 0`. The instruction below it is a MOV with submode 2, which stores `memory[19] = registers[REG_0]`. Register 0 and cell 19 both hold 0 at that point, so nothing changes.
- main.c:137 says "jump to MOV command". The jump target 6 is the INC; the MOV is at address 0.

`Run(s, fuel)` performs at most `fuel` iterations of the loop. The halt test of the last iteration counts as one. The result is:

- `Halted` or `Faulted`, with the state in which the machine stopped;
- or `Continue`, when the fuel ran out first.

## Model

| member | source | states |
|---|---|---|
| `Decoder.CmdOf` | main.c:32-33 | the command, the low nibble of a header; its properties are those of `CmdOfIsMasked`, `DecodeEncodeHeader` and `EncodeDecodeHeader` |
| `Decoder.TxTypeOf` | main.c:96-97 | the MOV submode, the high nibble of a header; its properties are those of `TxTypeOfIsMasked`, `DecodeEncodeHeader` and `EncodeDecodeHeader` |
| `Decoder.EncodeHeader` | main.c:124 | a header from a command and a submode; its properties are those of `EncodeHeaderIsOr` and `DecodeEncodeHeader` |
| `Decoder.CmdOfIsMasked` | main.c:32-33 | the command of a header is `ins & CMD_MASK` on its bits |
| `Decoder.TxTypeOfIsMasked` | main.c:96-97 | the MOV submode of a header is `(ins & TX_TYPE_MASK) >> 4` on its bits |
| `Decoder.EncodeHeaderIsOr` | main.c:124 | a header built as in the image, `cmd` or-ed with `sub << 4`, is `cmd + 16 * sub` |
| `Decoder.DecodeEncodeHeader` | main.c:168-187 | decoding a built header gives back its command and its submode |
| `Decoder.EncodeDecodeHeader` | main.c:107-111 | a header byte is determined by its two nibbles |
| `LittleEndian.ReadU32` | main.c:178-181 | the 4-byte little-endian word at `p`; its properties are those of `ReadU32Bytes`, `ReadU32IsOr`, `ReadEncodeU32` and `EncodeReadU32` |
| `LittleEndian.ReadU32Bytes` | main.c:178-181 | the word read at `p` has the four bytes at `p` as its base-256 digits, least significant first |
| `LittleEndian.ReadU32IsOr` | main.c:178-181 | the word read at `p` is the C expression `b0`, `b1 << 8`, `b2 << 16` and `b3 << 24` or-ed together, on the bits of the four bytes |
| `LittleEndian.EncodeU32` | main.c:121 | a word's four little-endian bytes, whose weighted sum is the word |
| `LittleEndian.ReadEncodeU32` | main.c:242-245 | reading four bytes that encode `w` gives `w` |
| `LittleEndian.EncodeReadU32` | main.c:226-229 | encoding the word read at `p` gives back the four bytes at `p` |
| `Vm.Wrap32` | main.c:173 | the result is congruent to the input modulo 2^32, lies in the `int` range, and equals the input when the input is in range |
| `Vm.AsUnsigned` | main.c:182 | the register as `unsigned int`: unchanged when non-negative, plus 2^32 when negative |
| `Vm.Truncate8` | main.c:220 | the stored byte is congruent to the register value modulo 256 |
| `Vm.IsNoOp` | main.c:170-251 | a non-zero byte whose command is HALT or has no case in the switch, or a MOV whose submode has no branch; `Vm.Step` then changes nothing and `NoOpSpinsForever` shows the machine never leaves it |
| `Vm.Step` | main.c:163-251 | one iteration keeps the state well-formed; it halts exactly at a zero byte; a halt or a fault leaves the state unchanged; a fault names a genuinely out-of-range index; the flag is never cleared; a no-op byte changes nothing |
| `Vm.ExecInc` | main.c:171-175 | INC; its effect is stated by `StepInc`, its faults by `StepFaultsExactly` |
| `Vm.ExecCmp` | main.c:176-185 | CMP; its effect is stated by `StepCmp`, its faults by `StepFaultsExactly` |
| `Vm.ExecMov` | main.c:186-239 | MOV; its effect is stated by `StepMovReg2Reg`, `StepMovReg2Mem`, `StepMovMem2Reg` and `StepMovMem2Mem`, its faults by `StepFaultsExactly` and `StepMovAddressFault` |
| `Vm.ExecJmpNe` | main.c:240-250 | JMP_NE; its effect is stated by `StepJmpNe`, `StepJmpNeTaken` and `JumpOutsideFaultsNext`, its faults by `StepFaultsExactly` |
| `Vm.Run` | main.c:163-252 | the loop uses at most its fuel and reports `Continue` exactly when it used all of it; a halt is at a zero byte; a set flag stays set |
| `Vm.Boot` | main.c:122-153 | the initial state: the image (`ReferenceProgram.Image` for `main`) at address 0, zeros after it, zero registers, `pc` and `cmp` 0 |
| `VmProperties.StepInc` | main.c:171-175 | INC r wraps register r up by one, advances `pc` by 2, and changes nothing else |
| `VmProperties.StepCmp` | main.c:176-185 | CMP r, v sets the flag exactly when the unsigned register equals v, never clears it, advances `pc` by 6, and changes nothing else |
| `VmProperties.StepJmpNe` | main.c:240-250 | JMP_NE jumps to its operand when the flag is 0, otherwise advances `pc` by 5; only `pc` changes |
| `VmProperties.StepJmpNeTaken` | main.c:247-249 | with the flag set, JMP_NE reads no operand and falls through even at the end of memory |
| `VmProperties.JumpOutsideFaultsNext` | main.c:163-250 | a taken JMP_NE to an address outside memory continues with `pc` at that address, and the next iteration faults with it |
| `VmProperties.StepMovReg2Reg` | main.c:187-196 | submode 0 copies the register of the high nibble into the register of the low nibble; everything else is unchanged |
| `VmProperties.StepMovReg2Mem` | main.c:197-209 | submode 1 (named REG_2_MEM) loads `memory[a]` into register r; memory is unchanged |
| `VmProperties.StepMovMem2Reg` | main.c:210-221 | submode 2 (named MEM_2_REG) stores register r, modulo 256, at `memory[a]`; no other cell and no register changes |
| `VmProperties.StepMovMem2Mem` | main.c:222-238 | submode 3 copies `memory[src]` to `memory[dest]`, the destination read first; nothing else changes |
| `VmProperties.StepFaultsExactly` | main.c:170-251 | an instruction faults if and only if its header, an operand byte, a register it names, or a memory address it reads or writes is out of range; a JMP_NE target is not checked, and one outside memory faults at the next fetch (`JumpOutsideFaultsNext`) |
| `VmProperties.StepMovAddressFault` | main.c:214-220 | a store whose address is outside memory faults with that address and leaves the state unchanged |
| `VmProperties.HaltNeedsWholeByteZero` | main.c:163-170 | a non-zero byte with command nibble HALT does not halt; it changes nothing |
| `VmProperties.NoOpSpinsForever` | main.c:170-251 | at a no-op byte every run uses all its fuel and leaves the state as it was |
| `VmProperties.RunStopsWhereStepStops` | main.c:163 | a run that stopped did so at a state where one more step stops the same way |
| `VmProperties.FlagIsSticky` | main.c:182-183 | once the flag is set, it stays set for the rest of any run |
| `VmProperties.RunStopsForGood` | main.c:163-252 | a run that stopped gives the same result with any amount of extra fuel |
| `VmProperties.RunSplits` | main.c:163-252 | running for `a + b` iterations is running for `a`, then for `b` from where that left off |
| `VmProperties.RunIncs` | main.c:171-175 | `k` INC r instructions in a row, run for `k` iterations, add exactly `k` to register r modulo 2^32 in two's complement, advance `pc` by `2k`, and change nothing else |
| `Interpreter.Machine.constructor` | main.c:122-153 | the machine starts in the state `Boot` gives for the image |
| `Interpreter.Machine.ReadWord` | main.c:215-218 | reading the operand bytes out of the memory array gives `ReadU32` of its contents |
| `Interpreter.Machine.Step` | main.c:163-251 | one iteration on the arrays and fields produces the outcome and new state of `Vm.Step` |
| `Interpreter.Machine.Inc` | main.c:171-175 | INC in place, as `Vm.ExecInc` |
| `Interpreter.Machine.Compare` | main.c:176-185 | CMP in place, as `Vm.ExecCmp` |
| `Interpreter.Machine.JumpIfNotEqual` | main.c:240-250 | JMP_NE in place, as `Vm.ExecJmpNe` |
| `Interpreter.Machine.Move` | main.c:186-239 | MOV in place for every submode, no-op past the fourth, as `Vm.ExecMov` |
| `Interpreter.Machine.MoveRegister` | main.c:187-196 | submode 0 in place |
| `Interpreter.Machine.Load` | main.c:197-209 | submode 1 in place: a register loaded from memory |
| `Interpreter.Machine.Store` | main.c:210-221 | submode 2 in place: a memory cell written from a register |
| `Interpreter.Machine.CopyCell` | main.c:222-238 | submode 3 in place: one memory cell copied to another |
| `Interpreter.Machine.Run` | main.c:163-252 | the `while` loop on the arrays and fields has the outcome, final state and step count of `Vm.Run` |
| `ReferenceProgram.StartIsBegin` | main.c:122-162 | booting the image gives a memory that holds the image, with registers, `pc` and flag zero |
| `ReferenceProgram.FirstStep` | main.c:123-126 | the first MOV stores R0 (zero) into the zero cell 19 and moves to the INC at address 6 |
| `ReferenceProgram.LoopRound` | main.c:128-139 | one INC, CMP, JMP_NE round below 10 goes back to the INC with R0 one higher in 3 instructions |
| `ReferenceProgram.LastRound` | main.c:132-141 | the round that brings R0 to 10 sets the flag, falls through, and halts at address 19 |
| `ReferenceProgram.FromLoopHead` | main.c:128-141 | from the INC with R0 == k, the program halts after `3 * (10 - k)` instructions |
| `ReferenceProgram.FromBegin` | main.c:122-144 | from the start state over a loaded memory, the program halts after 31 instructions |
| `ReferenceProgram.ReferenceProgramHalts` | main.c:155-163 | with 32 or more iterations the reference program halts at address 19 after 31 instructions, with R0 == 10 and the flag set |
| `ReferenceProgram.ReferenceProgramNeeds32` | main.c:163 | with 31 iterations it has not halted yet |
| `ReferenceProgram.RunReferenceProgram` | main.c:155-254 | `main` on the in-place machine halts after 31 instructions and reports 10 |

## Left out

- Faults on out-of-range indices are a strengthening: C indexes memory and the registers unchecked, which is undefined behaviour. The model stops with `AddressOutOfBounds` or `RegisterOutOfBounds`.
- An operand read past the end of memory faults with the address 65535 (`MAIN_MEM_SIZE`). A `pc` already past the end faults with `pc`.
- The loop has no bound in C. `Run` bounds it with fuel, so a program that never halts is seen only as "fuel used up".
- `memory[...] << 24` is computed on a C `int` and overflows for a byte of 128 or more (main.c:181, 205, 218, 229, 234, 245). The model takes the mathematical value, the bits the unsigned result ends up with on the usual targets.
- `char` is taken as unsigned: bytes are 0..255. With a signed `char`, bytes of 128 and up would be sign-extended when read and when assembled into words. That is not modelled.
- `Vm.Wrap32`: signed overflow of `++registers[r]` is undefined behaviour in C. The model fixes it as 32-bit two's-complement wrap-around.
- C does not fix the order in which the two sides of an assignment are evaluated. The model reports the leftmost out-of-range access of each statement.
- `printbits` and the `printf` calls are output only and are not modelled. `RunReferenceProgram` returns register 0 instead of printing it.
- The debugging name tables `cmdnames`, `regnames` and `txnames` are left out. They are unused.
- Unknown commands and MOV submodes 4 and up are silent no-ops, as in the code. They are not turned into decode faults.
