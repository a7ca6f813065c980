# LS8 simulator core in Dafny

This project models the `CPU` class of the LS8 simulator (`ls8/cpu.py`). The LS8 is
an 8-bit teaching computer with 256 bytes of memory, eight registers (R7 is the stack
pointer, starting at 0xF4) and an eight-slot flag list. The `CPU` object holds:

- memory, registers and flags, modelled as arrays;
- the program counter;
- a running flag.

Its methods load a program text into memory (`load`), read and write memory
(`ram_read`, `ram_write`), apply a register operation (`alu`) and run the
fetch-decode-execute loop (`run`).

The model has five modules:

- `Opcodes` (opcodes.dfy): the fourteen opcode constants, and the dispatch chain of
  `run` as a decoder onto the ten instructions it handles.
- `Semantics` (semantics.dfy): the machine state as a value; one cycle of `run` as
  the function `Exec`; the `while self.running` loop as the fuel-bounded `Loop`.
- `Loader` (loader.dfy): the line rule of `load`, which is
  1. cut the line at `#`;
  2. strip surrounding whitespace;
  3. skip the line if it is empty, otherwise read it as a base-2 number.

  The module also has `LoadLines`, the loader's loop over parsed lines.
- `Cpu` (cpu.dfy): the class `CPU` with array fields and in-place methods.
  - `Step`, `Run` and `Load` are each proved to leave exactly the state that
    `Exec`, `RunSpec` and `LoadLines` describe.
  - The constructor, `RamRead`, `RamWrite` and `Alu` state their effect directly.
  - `Boot` is the start of a program (`CPU()` then `load`). It is proved to build
    the machine that `Properties.Loaded` describes, which the example runs start from.
- `Properties` (properties.dfy): what each instruction does, how the stack and the
  flags behave over whole runs, and two small programs run to completion.

The model follows the code as written, which differs from a textbook LS8 in these ways:

- Registers and memory cells hold unbounded integers. Nothing is truncated to 8 bits,
  so MUL can produce 45 or 65025 alike.
- CMP only ever sets slot 5 (greater), 6 (less) or 7 (equal) of `FL` to 1. It never
  clears a slot, so once a comparison found two values equal, JEQ keeps jumping and
  JNE keeps falling through for the rest of the run.
- ADD, PRA, CALL and RET are declared opcodes, but `run` does not dispatch them. They
  print the unknown-instruction message and exit with status 1. `alu` is never
  called from `run`.
- The stack is unchecked:
  - PUSH decrements SP before reading the pushed register, so PUSH R7 stores the
    decremented SP;
  - POP writes the destination register before incrementing SP, so POP R7 leaves the
    popped value plus one.
- Every cycle reads the opcode and both operand bytes, so even a one-byte HLT in the
  last two cells of memory fails to fetch.

An access outside a Python list (an uncaught `IndexError`) becomes an explicit
`Faulted` status. It records the offending address or register number. An unsupported
`alu` operation is also `Faulted`. In all these cases the model keeps the state from
before the cycle, since the process ends and nothing after that is observable.
`sys.exit(1)` is the status `Exited(1)`. `print` appends to an output sequence.

## Model

| member | source | states |
|---|---|---|
| Opcodes.Encode | ls8/cpu.py:3-16 | every handled instruction is selected by a byte value below 256 |
| Opcodes.Decode | ls8/cpu.py:156-249 | the dispatch chain picks an instruction only for its own opcode, and falls to the unknown-instruction branch exactly when no handled opcode matches |
| Opcodes.DecodeEncode | ls8/cpu.py:156-221 | decoding inverts encoding: each handled opcode reaches its own branch |
| Opcodes.UndispatchedOpcodes | ls8/cpu.py:7-14 | ADD, PRA, CALL and RET reach the unknown-instruction branch |
| Semantics.FetchFault | ls8/cpu.py:149-154 | when the three fetched cells are not all in memory, the reported address is one of pc, pc+1, pc+2 and lies outside memory |
| Semantics.Exec | ls8/cpu.py:149-249 | one cycle keeps memory at 256 cells, 8 registers and 8 flags; an exit or fault leaves memory, registers, flags, pc and the running flag unchanged; output grows by at most one line; every exit has status 1 |
| Semantics.RunSpec | ls8/cpu.py:144-147 | `run` first sets the running flag: with no fuel the machine is only set running, and otherwise even a halted machine executes a cycle from its pc and continues while cycles complete |
| Semantics.Loop | ls8/cpu.py:147-249 | a run of cycles keeps the machine's shape and only appends to the output |
| Properties.FetchOutOfRange | ls8/cpu.py:149-154 | a cycle whose operand cells run past memory faults on an address outside memory and changes nothing |
| Properties.UnknownInstruction | ls8/cpu.py:247-249 | an unhandled opcode prints the message and exits with status 1, changing nothing else |
| Properties.LdiEffect | ls8/cpu.py:156-158 | LDI stores the second operand in the register named by the first, advances pc by 3 and changes nothing else; a bad register number faults |
| Properties.PrnEffect | ls8/cpu.py:160-162 | PRN appends the register's value to the output, advances pc by 2 and changes nothing else; a bad register number faults |
| Properties.HltEffect | ls8/cpu.py:164-166 | HLT clears the running flag and advances pc by 1, which ends the loop |
| Properties.MulEffect | ls8/cpu.py:168-170 | MUL stores the untruncated product in the first register, advances pc by 3 and changes nothing else (no output, still running); the first bad register number faults |
| Properties.PushEffect | ls8/cpu.py:172-179 | PUSH decrements SP, writes the register into exactly the one memory cell at the new SP, advances pc by 2 and changes nothing else; a bad register, then a stack pointer outside memory, faults |
| Properties.PushStackPointer | ls8/cpu.py:174-178 | PUSH R7 stores the already decremented SP |
| Properties.PopEffect | ls8/cpu.py:181-190 | POP copies the cell at SP into the register, then increments SP, advances pc by 2 and changes nothing else; a stack pointer outside memory, then a bad register, faults |
| Properties.PopStackPointer | ls8/cpu.py:183-189 | POP R7 leaves the popped value plus one in R7 |
| Properties.PushThenPop | ls8/cpu.py:172-190 | PUSH Rx then POP Ry copies Rx into Ry, restores SP, leaves the pushed value in memory, advances pc by 4 and changes nothing else |
| Properties.CmpEffect | ls8/cpu.py:192-202 | CMP sets exactly the slot matching the comparison to 1 (5 greater, 6 less, 7 equal, the last exactly when the values are equal) and leaves the other slots and everything but pc alone |
| Properties.ExecFlags | ls8/cpu.py:192-202 | no cycle clears a flag, and flags stay 0 or 1 |
| Properties.LoopNeverClearsFlags | ls8/cpu.py:147-221 | over any number of cycles no flag is cleared |
| Properties.EqualFlagSticks | ls8/cpu.py:192-221 | once the equal flag is set it stays set for the rest of the run |
| Properties.JmpEffect | ls8/cpu.py:212-214 | JMP sets pc to the register's value and changes nothing else |
| Properties.JeqEffect | ls8/cpu.py:204-209 | JEQ jumps exactly when slot 7 is 1, and otherwise advances pc by 2 |
| Properties.JneEffect | ls8/cpu.py:216-221 | JNE jumps exactly when slot 7 is 0, and otherwise advances pc by 2 |
| Properties.Loaded | ls8/cpu.py:23-31 | the constructed machine with a program image at address 0: the image, zeros in the rest of memory, in every register but SP and in every flag, SP = 0xF4, pc 0, running, no output |
| Properties.Print8 | ls8/cpu.py:56-64 | the print8 program (LDI R0,8; PRN R0; HLT) prints 8 and halts |
| Properties.Mult | ls8/cpu.py:156-170 | LDI R0,9; LDI R1,5; MUL R0,R1; PRN R0; HLT prints 45 and halts |
| Loader.BeforeHash | ls8/cpu.py:78 | the kept text is a prefix of the line without `#`, and the line continues with `#` wherever it was cut |
| Loader.Strip | ls8/cpu.py:79 | the result neither starts nor ends with whitespace, and is empty exactly when the text is all whitespace |
| Loader.StripSurrounding | ls8/cpu.py:79 | whitespace on both sides of a token is removed and the token is kept whole |
| Loader.ParseLine | ls8/cpu.py:78-91 | a line is blank (skipped) exactly when its text before `#` is all whitespace, and a bad token is a non-empty string that is not binary digits |
| Loader.ParseBad | ls8/cpu.py:78-88 | a non-binary token surrounded by whitespace and followed by a comment is reported as bad with exactly its stripped text |
| Loader.CommentLineBlank | ls8/cpu.py:78-82 | a line of only whitespace and a comment is skipped |
| Loader.CollectSkipsBlank | ls8/cpu.py:81-82 | removing a blank parsed line changes neither the numbers nor the bad token |
| Loader.BlankLineSkipped | ls8/cpu.py:77-82 | removing a blank or comment-only line from a program text does not change what it loads |
| Loader.ParseIndented | ls8/cpu.py:78-85 | an indented binary literal followed by whitespace and a comment parses to its value |
| Loader.Bits | ls8/cpu.py:85 | a string of n binary digits denotes a value below 2^n; with BitsPrepend, its value is read most significant digit first |
| Loader.BitsPrepend | ls8/cpu.py:85 | place value: a leading `1` adds 2 to the power of the number of digits after it, a leading `0` adds nothing |
| Loader.ZerosPrepended | ls8/cpu.py:85 | leading zeros do not change a binary number |
| Loader.LdiLiteral | ls8/cpu.py:3 | the literal `10000010` reads as 0x82, the LDI opcode |
| Loader.LdiLine | ls8/cpu.py:78-85 | the program line `10000010 # LDI R0,8` loads the LDI opcode |
| Loader.BitsToBits | ls8/cpu.py:85 | reading back the binary digits of a value gives the value |
| Loader.Collect | ls8/cpu.py:77-91 | a program text holds no more numbers than lines |
| Loader.CommentIgnored | ls8/cpu.py:78-79 | a comment after `#` never changes what a line means |
| Loader.StripTrailing | ls8/cpu.py:79 | trailing whitespace after a token is removed |
| Loader.ParseRendered | ls8/cpu.py:78-85 | a line holding a byte's 8 binary digits and a newline parses to that byte |
| Loader.CollectNumbers | ls8/cpu.py:77-91 | lines that are all numbers contribute exactly those numbers, in order |
| Loader.ImageOfRender | ls8/cpu.py:76-91 | a program image written one binary literal per line reads back to the same image |
| Loader.LoadLines | ls8/cpu.py:77-91 | loading keeps memory at 256 cells |
| Loader.LoadLinesStatus | ls8/cpu.py:77-91 | loading overflows memory exactly when the text holds more numbers than cells left, exits with status 1 after printing the message when it holds a bad token, and otherwise ends normally with output unchanged |
| Loader.LoadLinesMemory | ls8/cpu.py:77-91 | loading stores the text's numbers in consecutive cells from the start address and leaves every other cell alone |
| Loader.LoadImage | ls8/cpu.py:73-91 | loading a whole text from address 0: numbers fill memory in order (or overflow on cell 256), cells past the program keep their values, and the first bad token prints its message and exits with status 1 |
| Cpu.CPU.constructor | ls8/cpu.py:23-31 | memory, registers and flags are zero except SP = 0xF4; pc is 0 and the machine is running |
| Cpu.CPU.RamRead | ls8/cpu.py:41-43 | reading an address returns the memory cell that a cycle of `Exec` sees there |
| Cpu.CPU.RamWrite | ls8/cpu.py:41-47 | writing value then address makes `ram_read` of that address return the value, and no other cell changes |
| Cpu.CPU.Alu | ls8/cpu.py:97-106 | ADD and MUL store the sum or product in the first register; any other operation is refused; a bad register number faults |
| Cpu.CPU.Step | ls8/cpu.py:149-249 | one in-place cycle leaves exactly the state and status `Exec` gives |
| Cpu.CPU.Run | ls8/cpu.py:139-249 | setting the running flag and then looping leaves exactly the state and status of `Loop` from the running machine |
| Cpu.CPU.Load | ls8/cpu.py:73-91 | loading in place leaves exactly the memory, output and status of `LoadLines` on the parsed text, whose consequences `LoadImage` states |
| Cpu.Boot | ls8/ls8.py:7-11 | constructing the CPU and loading a program written one 8-digit binary literal per line ends normally and leaves exactly the machine `Properties.Loaded` describes |

## Left out

- Opening the file: `load` takes the program text already split into lines, and the "File not found" branch is not part of this model.
- The command-line check of `ls8.py` (exit 1 without exactly one argument) is not part of this model. `Cpu.Boot` covers its `CPU()` and `load`, and `Run` covers its `run`.
- `trace` only prints debugging output and is not modelled.
- Loader.ParseLine: only strings of `0`/`1` digits are numbers. Python's `int(n, 2)` also accepts a sign, a `0b` prefix, underscores between digits, and non-ASCII Unicode decimal digits (Arabic-Indic "١٠" reads as 2); the model treats all such tokens as invalid.
- Loader.Strip: removes only the ASCII whitespace that Python's `str.strip()` removes. Other Unicode whitespace is kept.
- Negative list indices wrap around in Python (`ram[-1]` is `ram[255]`). The model treats every index outside the list as a fault.
- After an uncaught exception, the model keeps the state from before the faulting cycle. Writes made earlier in that same cycle (such as PUSH's SP decrement before a bad register read) are not kept, because the process has ended.
- Cpu.CPU.Run: runs at most `fuel` cycles, so a program that never halts is represented only by its finite prefixes.
- Printing is an output sequence; the exact text and formatting of `print` is not modelled.
