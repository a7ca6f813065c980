/**
 What one cycle of the simulator does for each opcode, and what whole runs
 preserve. All statements are about the simulator as written: registers are
 not truncated, CMP never clears a flag and the stack is unchecked.
 */
module Properties {
  import opened Opcodes
  import opened Semantics

  /** The machine is about to execute the instruction `opcode`. */
  predicate At(m: Machine, opcode: int)
  {
    WellFormed(m) && CanFetch(m.pc) && m.ram[m.pc] == opcode
  }

  function Operand1(m: Machine): int
    requires WellFormed(m) && CanFetch(m.pc)
  {
    m.ram[m.pc + 1]
  }

  function Operand2(m: Machine): int
    requires WellFormed(m) && CanFetch(m.pc)
  {
    m.ram[m.pc + 2]
  }

  /** Every flag slot holds 0 or 1. */
  ghost predicate FlagBits(fl: seq<int>)
  {
    forall i :: 0 <= i < |fl| ==> fl[i] == 0 || fl[i] == 1
  }

  /** No flag slot went from its old value to anything but 1. */
  ghost predicate NoFlagCleared(fl: seq<int>, fl': seq<int>)
  {
    |fl| == |fl'| && forall i :: 0 <= i < |fl| ==> fl'[i] == fl[i] || fl'[i] == 1
  }

  // ---------------------------------------------------------------- fetch

  /** A cycle whose three fetched bytes are not all in memory faults and changes nothing. */
  lemma FetchOutOfRange(m: Machine)
    requires WellFormed(m) && !CanFetch(m.pc)
    ensures Exec(m).status.Faulted? && Exec(m).after == m
    ensures Exec(m).status.fault.RamIndex? && !IsAddr(Exec(m).status.fault.addr)
  {
  }

  /**
   An opcode outside the ten handled ones (ADD, PRA, CALL and RET among them)
   reports the error and exits with status 1 without touching the machine.
   */
  lemma UnknownInstruction(m: Machine)
    requires WellFormed(m) && CanFetch(m.pc) && Decode(m.ram[m.pc]).None?
    ensures Exec(m).status == Exited(1)
    ensures Exec(m).after == m.(output := m.output + [UnknownInstructionMessage])
  {
  }

  // ---------------------------------------------------------------- data

  /** LDI writes the immediate into one register and nothing else. */
  lemma LdiEffect(m: Machine)
    requires At(m, LDI)
    ensures var t, a := Exec(m), Operand1(m);
      if IsReg(a) then
        t.status == Normal && t.after.reg[a] == Operand2(m) &&
        (forall r :: 0 <= r < REG_COUNT && r != a ==> t.after.reg[r] == m.reg[r]) &&
        t.after.ram == m.ram && t.after.fl == m.fl && t.after.pc == m.pc + 3 &&
        t.after.running == m.running && t.after.output == m.output
      else t == Crash(m, RegIndex(a))
  {
  }

  /** PRN appends the register's value to the output and changes nothing else but pc. */
  lemma PrnEffect(m: Machine)
    requires At(m, PRN)
    ensures var t, a := Exec(m), Operand1(m);
      if IsReg(a) then
        t == Transition(m.(output := m.output + [Value(m.reg[a])], pc := m.pc + 2), Normal)
      else t == Crash(m, RegIndex(a))
  {
  }

  /** HLT clears the running flag and advances past itself, which ends the loop. */
  lemma HltEffect(m: Machine, fuel: nat)
    requires At(m, HLT)
    ensures Exec(m).status == Normal
    ensures Exec(m).after == m.(running := false, pc := m.pc + 1)
    ensures m.running && fuel >= 1 ==> Loop(m, fuel) == Exec(m)
  {
  }

  /** MUL multiplies without truncation (the product may exceed 255) and changes nothing else but pc. */
  lemma MulEffect(m: Machine)
    requires At(m, MUL)
    ensures var t, a, b := Exec(m), Operand1(m), Operand2(m);
      if IsReg(a) && IsReg(b) then
        t == Transition(m.(reg := m.reg[a := m.reg[a] * m.reg[b]], pc := m.pc + 3), Normal)
      else t == Crash(m, RegIndex(if IsReg(a) then b else a))
  {
  }

  // ---------------------------------------------------------------- stack

  /**
   PUSH decrements SP and writes exactly one memory cell, at the new SP; it
   prints nothing and keeps the machine running.
   */
  lemma PushEffect(m: Machine)
    requires At(m, PUSH)
    ensures var t, a, sp := Exec(m), Operand1(m), m.reg[SP] - 1;
      if !IsReg(a) then t == Crash(m, RegIndex(a))
      else if !IsAddr(sp) then t == Crash(m, RamIndex(sp))
      else
        t == Transition(m.(ram := m.ram[sp := if a == SP then sp else m.reg[a]],
                           reg := m.reg[SP := sp], pc := m.pc + 2), Normal)
  {
  }

  /** PUSH R7 stores the stack pointer as already decremented. */
  lemma PushStackPointer(m: Machine)
    requires At(m, PUSH) && Operand1(m) == SP && IsAddr(m.reg[SP] - 1)
    ensures Exec(m).after.ram[m.reg[SP] - 1] == m.reg[SP] - 1
  {
  }

  /**
   POP reads memory at SP into the register, then increments SP (so POP R7
   leaves the popped value plus one); memory, flags, output and the running
   flag are kept.
   */
  lemma PopEffect(m: Machine)
    requires At(m, POP)
    ensures var t, a, sp := Exec(m), Operand1(m), m.reg[SP];
      if !IsAddr(sp) then t == Crash(m, RamIndex(sp))
      else if !IsReg(a) then t == Crash(m, RegIndex(a))
      else
        t == Transition(m.(reg := m.reg[a := m.ram[sp]][SP := (if a == SP then m.ram[sp] else sp) + 1],
                           pc := m.pc + 2), Normal)
  {
  }

  /** POP R7 leaves the popped value plus one in R7. */
  lemma PopStackPointer(m: Machine)
    requires At(m, POP) && Operand1(m) == SP && IsAddr(m.reg[SP])
    ensures Exec(m).after.reg == m.reg[SP := m.ram[m.reg[SP]] + 1]
  {
  }

  /**
   PUSH Rx followed by POP Ry (neither of them R7) copies Rx into Ry and
   restores SP; the pushed value stays in memory below the stack. The push
   must not overwrite the POP instruction itself.
   */
  lemma PushThenPop(m: Machine)
    requires At(m, PUSH) && CanFetch(m.pc + 2) && m.ram[m.pc + 2] == POP
    requires var x, y := m.ram[m.pc + 1], m.ram[m.pc + 3];
      IsReg(x) && IsReg(y) && x != SP && y != SP
    requires var sp := m.reg[SP] - 1; IsAddr(sp) && sp != m.pc + 2 && sp != m.pc + 3
    ensures var x, y, sp := m.ram[m.pc + 1], m.ram[m.pc + 3], m.reg[SP] - 1;
      var t1 := Exec(m);
      var t2 := Exec(t1.after);
      t1.status == Normal && t2.status == Normal &&
      t2.after.reg[SP] == m.reg[SP] &&
      t2.after == m.(ram := m.ram[sp := m.reg[x]], reg := m.reg[y := m.reg[x]], pc := m.pc + 4)
  {
  }

  // ---------------------------------------------------------------- flags

  /**
   CMP sets exactly the slot that matches the comparison (5: greater,
   6: less, 7: equal) to 1 and leaves the other seven slots as they were;
   it changes nothing else but pc.
   */
  lemma CmpEffect(m: Machine)
    requires At(m, CMP)
    ensures var t, a, b := Exec(m), Operand1(m), Operand2(m);
      if IsReg(a) && IsReg(b) then
        var slot := if m.reg[a] > m.reg[b] then GREATER
                    else if m.reg[a] < m.reg[b] then LESS else EQUAL;
        t == Transition(m.(fl := m.fl[slot := 1], pc := m.pc + 3), Normal) &&
        t.after.fl[slot] == 1 &&
        (forall i :: 0 <= i < FLAG_SLOTS && i != slot ==> t.after.fl[i] == m.fl[i])
      else t == Crash(m, RegIndex(if IsReg(a) then b else a))
  {
  }

  /** A cycle never clears a flag, and keeps every slot 0 or 1. */
  lemma ExecFlags(m: Machine)
    requires WellFormed(m)
    ensures NoFlagCleared(m.fl, Exec(m).after.fl)
    ensures FlagBits(m.fl) ==> FlagBits(Exec(m).after.fl)
  {
  }

  /** Over any number of cycles no flag is ever cleared: flags are sticky. */
  lemma {:induction false} LoopNeverClearsFlags(m: Machine, fuel: nat)
    requires WellFormed(m)
    ensures NoFlagCleared(m.fl, Loop(m, fuel).after.fl)
    ensures FlagBits(m.fl) ==> FlagBits(Loop(m, fuel).after.fl)
    decreases fuel
  {
    if m.running && fuel > 0 {
      var t := Exec(m);
      ExecFlags(m);
      if t.status == Normal {
        LoopNeverClearsFlags(t.after, fuel - 1);
      }
    }
  }

  /**
   Once a comparison has found two registers equal, the equal flag stays set
   for the rest of the run, even across later comparisons that differ.
   */
  lemma EqualFlagSticks(m: Machine, fuel: nat)
    requires WellFormed(m) && m.fl[EQUAL] == 1
    ensures Loop(m, fuel).after.fl[EQUAL] == 1
  {
    LoopNeverClearsFlags(m, fuel);
  }

  // ---------------------------------------------------------------- jumps

  /** JMP loads the program counter from a register and changes nothing else. */
  lemma JmpEffect(m: Machine)
    requires At(m, JMP)
    ensures var t, a := Exec(m), Operand1(m);
      if IsReg(a) then t == Transition(m.(pc := m.reg[a]), Normal)
      else t == Crash(m, RegIndex(a))
  {
  }

  /** JEQ jumps exactly when slot 7 is 1, and otherwise skips its operand. */
  lemma JeqEffect(m: Machine)
    requires At(m, JEQ)
    ensures var t, a := Exec(m), Operand1(m);
      if m.fl[EQUAL] == 1 then
        (if IsReg(a) then t == Transition(m.(pc := m.reg[a]), Normal)
         else t == Crash(m, RegIndex(a)))
      else t == Transition(m.(pc := m.pc + 2), Normal)
  {
  }

  /** JNE jumps exactly when slot 7 is 0, and otherwise skips its operand. */
  lemma JneEffect(m: Machine)
    requires At(m, JNE)
    ensures var t, a := Exec(m), Operand1(m);
      if m.fl[EQUAL] == 0 then
        (if IsReg(a) then t == Transition(m.(pc := m.reg[a]), Normal)
         else t == Crash(m, RegIndex(a)))
      else t == Transition(m.(pc := m.pc + 2), Normal)
  {
  }

  // ---------------------------------------------------------------- programs

  /**
   The machine as constructed, with `image` loaded from address 0: the rest
   of memory, every register but SP and every flag are 0, SP is 0xF4, pc is
   0, the machine is running and nothing has been printed.
   */
  function Loaded(image: seq<int>): (m: Machine)
    requires |image| <= RAM_SIZE
    ensures WellFormed(m) && m.ram[..|image|] == image
    ensures forall a :: |image| <= a < RAM_SIZE ==> m.ram[a] == 0
    ensures forall r :: 0 <= r < REG_COUNT ==> m.reg[r] == if r == SP then SP_INIT else 0
    ensures forall i :: 0 <= i < FLAG_SLOTS ==> m.fl[i] == 0
    ensures m.pc == 0 && m.running && m.output == []
  {
    Machine(image + seq(RAM_SIZE - |image|, _ => 0),
            seq(REG_COUNT, r => if r == SP then SP_INIT else 0),
            seq(FLAG_SLOTS, _ => 0), 0, true, [])
  }

  /** LDI R0,8; PRN R0; HLT prints 8 and halts. */
  lemma Print8()
    ensures var t := RunSpec(Loaded([LDI, 0, 8, PRN, 0, HLT]), 3);
      t.status == Normal && !t.after.running && t.after.output == [Value(8)]
  {
  }

  /** LDI R0,9; LDI R1,5; MUL R0,R1; PRN R0; HLT prints 45 and halts. */
  lemma Mult()
    ensures var t := RunSpec(Loaded([LDI, 0, 9, LDI, 1, 5, MUL, 0, 1, PRN, 0, HLT]), 5);
      t.status == Normal && !t.after.running && t.after.output == [Value(45)]
  {
  }
}
