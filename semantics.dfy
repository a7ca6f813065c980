/**
 The state of the LS8 simulator as a value, and one fetch-decode-execute
 cycle of `CPU.run` as a function on it. The class in cpu.dfy is proved to
 follow these functions.

 Register and memory cells hold unbounded integers: the simulator never
 truncates to 8 bits. A list access outside its range (which ends the Python
 process with an uncaught IndexError) is an explicit fault that leaves the
 state as it was before the cycle.
 */
module Semantics {
  import opened Opcodes

  const RAM_SIZE: int := 256
  const REG_COUNT: int := 8
  const FLAG_SLOTS: int := 8
  /** Register R7 is the stack pointer. */
  const SP: int := 7
  const SP_INIT: int := 0xF4
  /** The flag slots written by CMP. */
  const GREATER: int := 5
  const LESS: int := 6
  const EQUAL: int := 7

  /** A line written to standard output. */
  datatype OutLine =
    | Value(n: int)               // PRN: the register's value in decimal
    | UnknownInstructionMessage   // the unknown-instruction branch
    | InvalidNumberMessage(token: string)  // the loader's complaint about a token

  datatype Fault =
    | RamIndex(addr: int)         // a memory access outside 0..255
    | RegIndex(index: int)        // a register access outside 0..7
    | UnsupportedOperation(op: string)  // `alu` called with an operation it lacks

  /** How a cycle (or a run) ended. */
  datatype Status =
    | Normal                      // the instruction completed (HLT included)
    | Exited(code: int)           // the process exits with this status
    | Faulted(fault: Fault)       // an uncaught exception ends the process

  datatype Machine = Machine(
    ram: seq<int>,
    reg: seq<int>,
    fl: seq<int>,
    pc: int,
    running: bool,
    output: seq<OutLine>)

  datatype Transition = Transition(after: Machine, status: Status)

  predicate WellFormed(m: Machine)
  {
    |m.ram| == RAM_SIZE && |m.reg| == REG_COUNT && |m.fl| == FLAG_SLOTS
  }

  predicate IsAddr(a: int)
  {
    0 <= a < RAM_SIZE
  }

  predicate IsReg(r: int)
  {
    0 <= r < REG_COUNT
  }

  /** Every cycle reads the opcode and both operand bytes, whatever the opcode. */
  predicate CanFetch(pc: int)
  {
    0 <= pc && pc + 2 < RAM_SIZE
  }

  /** The first of `pc`, `pc + 1`, `pc + 2` that is not an address. */
  function FetchFault(pc: int): (a: int)
    requires !CanFetch(pc)
    ensures a in {pc, pc + 1, pc + 2} && !IsAddr(a)
  {
    if !IsAddr(pc) then pc else if !IsAddr(pc + 1) then pc + 1 else pc + 2
  }

  function Crash(m: Machine, f: Fault): Transition
  {
    Transition(m, Faulted(f))
  }

  /** One fetch-decode-execute cycle. */
  function Exec(m: Machine): (t: Transition)
    requires WellFormed(m)
    ensures WellFormed(t.after)
    ensures t.status != Normal ==>
      t.after.ram == m.ram && t.after.reg == m.reg && t.after.fl == m.fl &&
      t.after.pc == m.pc && t.after.running == m.running
    ensures m.output <= t.after.output && |t.after.output| <= |m.output| + 1
    ensures t.status.Exited? ==> t.status.code == 1
  {
    if !CanFetch(m.pc) then Crash(m, RamIndex(FetchFault(m.pc)))
    else
      var a, b := m.ram[m.pc + 1], m.ram[m.pc + 2];
      match Decode(m.ram[m.pc])
      case None =>
        Transition(m.(output := m.output + [UnknownInstructionMessage]), Exited(1))
      case Some(op) =>
        match op
        case Ldi =>
          if !IsReg(a) then Crash(m, RegIndex(a))
          else Transition(m.(reg := m.reg[a := b], pc := m.pc + 3), Normal)
        case Prn =>
          if !IsReg(a) then Crash(m, RegIndex(a))
          else Transition(m.(output := m.output + [Value(m.reg[a])], pc := m.pc + 2), Normal)
        case Hlt =>
          Transition(m.(running := false, pc := m.pc + 1), Normal)
        case Mul =>
          if !IsReg(a) then Crash(m, RegIndex(a))
          else if !IsReg(b) then Crash(m, RegIndex(b))
          else Transition(m.(reg := m.reg[a := m.reg[a] * m.reg[b]], pc := m.pc + 3), Normal)
        case Push =>
          // SP is decremented before the pushed register is read
          var sp := m.reg[SP] - 1;
          if !IsReg(a) then Crash(m, RegIndex(a))
          else if !IsAddr(sp) then Crash(m, RamIndex(sp))
          else
            var reg := m.reg[SP := sp];
            Transition(m.(ram := m.ram[sp := reg[a]], reg := reg, pc := m.pc + 2), Normal)
        case Pop =>
          // the destination is written before SP is incremented
          var sp := m.reg[SP];
          if !IsAddr(sp) then Crash(m, RamIndex(sp))
          else if !IsReg(a) then Crash(m, RegIndex(a))
          else
            var reg := m.reg[a := m.ram[sp]];
            Transition(m.(reg := reg[SP := reg[SP] + 1], pc := m.pc + 2), Normal)
        case Cmp =>
          if !IsReg(a) then Crash(m, RegIndex(a))
          else if !IsReg(b) then Crash(m, RegIndex(b))
          else
            var slot := if m.reg[a] > m.reg[b] then GREATER
                        else if m.reg[a] < m.reg[b] then LESS
                        else EQUAL;
            Transition(m.(fl := m.fl[slot := 1], pc := m.pc + 3), Normal)
        case Jeq =>
          if m.fl[EQUAL] == 1 then
            if !IsReg(a) then Crash(m, RegIndex(a))
            else Transition(m.(pc := m.reg[a]), Normal)
          else Transition(m.(pc := m.pc + 2), Normal)
        case Jmp =>
          if !IsReg(a) then Crash(m, RegIndex(a))
          else Transition(m.(pc := m.reg[a]), Normal)
        case Jne =>
          if m.fl[EQUAL] == 0 then
            if !IsReg(a) then Crash(m, RegIndex(a))
            else Transition(m.(pc := m.reg[a]), Normal)
          else Transition(m.(pc := m.pc + 2), Normal)
  }

  /**
   The `while self.running` loop, cut off after `fuel` cycles; it stops
   early when a cycle exits or faults. A result whose machine is still
   running means the fuel ran out.
   */
  function Loop(m: Machine, fuel: nat): (t: Transition)
    requires WellFormed(m)
    ensures WellFormed(t.after)
    ensures m.output <= t.after.output
    decreases fuel
  {
    if !m.running || fuel == 0 then Transition(m, Normal)
    else
      var t := Exec(m);
      if t.status == Normal then Loop(t.after, fuel - 1) else t
  }

  /**
   `run` sets the running flag before entering its loop, so a machine that
   has halted executes again from its program counter.
   */
  function RunSpec(m: Machine, fuel: nat): (t: Transition)
    requires WellFormed(m)
    ensures WellFormed(t.after) && m.output <= t.after.output
    ensures fuel == 0 ==> t == Transition(m.(running := true), Normal)
    ensures fuel > 0 ==>
      var first := Exec(m.(running := true));
      t == if first.status == Normal then Loop(first.after, fuel - 1) else first
  {
    Loop(m.(running := true), fuel)
  }
}
