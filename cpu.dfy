/**
 The simulator object: memory, registers and flags are arrays updated in
 place, and the program counter, the running flag and the output are fields.
 `Step`, `Run` and `Load` are proved to leave exactly the state that
 `Exec`, `RunSpec` and `LoadLines` describe; the constructor, `RamRead`,
 `RamWrite` and `Alu` state their effect directly.
 */
module Cpu {
  import opened Opcodes
  import opened Semantics
  import opened Loader
  import Properties

  class CPU {
    const ram: array<int>
    const reg: array<int>
    const fl: array<int>
    var pc: int
    var running: bool
    /** What `print` has written so far. */
    var output: seq<OutLine>

    ghost predicate Valid()
      reads this
    {
      ram.Length == RAM_SIZE && reg.Length == REG_COUNT && fl.Length == FLAG_SLOTS &&
      ram != reg && ram != fl && reg != fl
    }

    /** The whole state as a value. */
    function State(): (m: Machine)
      reads this, ram, reg, fl
      requires Valid()
      ensures WellFormed(m)
    {
      Machine(ram[..], reg[..], fl[..], pc, running, output)
    }

    /** Memory, registers and flags zeroed, SP = 0xF4, pc = 0, running. */
    constructor ()
      ensures Valid() && fresh(ram) && fresh(reg) && fresh(fl)
      ensures forall a :: 0 <= a < RAM_SIZE ==> ram[a] == 0
      ensures forall r :: 0 <= r < REG_COUNT ==> reg[r] == if r == SP then SP_INIT else 0
      ensures forall i :: 0 <= i < FLAG_SLOTS ==> fl[i] == 0
      ensures pc == 0 && running && output == []
    {
      ram := new int[RAM_SIZE](_ => 0);
      reg := new int[REG_COUNT](_ => 0);
      fl := new int[FLAG_SLOTS](_ => 0);
      pc := 0;
      running := true;
      output := [];
      new;
      reg[SP] := SP_INIT;
    }

    /** The cell that a cycle of `Exec` sees at `mar`. */
    function RamRead(mar: int): (v: int)
      reads this, ram, reg, fl
      requires Valid() && IsAddr(mar)
      ensures v == State().ram[mar]
    {
      ram[mar]
    }

    /** The value comes first and the address second, as in the source. */
    method RamWrite(mdr: int, mar: int)
      requires Valid() && IsAddr(mar)
      modifies ram
      ensures RamRead(mar) == mdr
      ensures forall a :: 0 <= a < RAM_SIZE && a != mar ==> ram[a] == old(ram[a])
      ensures ram[..] == old(ram[..])[mar := mdr]
    {
      ram[mar] := mdr;
    }

    /** "ADD" and "MUL" on two registers, unbounded; any other name is refused. */
    method Alu(op: string, regA: int, regB: int) returns (st: Status)
      requires Valid()
      modifies reg
      ensures op != "ADD" && op != "MUL" ==>
        st == Faulted(UnsupportedOperation(op)) && reg[..] == old(reg[..])
      ensures (op == "ADD" || op == "MUL") && !IsReg(regA) ==>
        st == Faulted(RegIndex(regA)) && reg[..] == old(reg[..])
      ensures (op == "ADD" || op == "MUL") && IsReg(regA) && !IsReg(regB) ==>
        st == Faulted(RegIndex(regB)) && reg[..] == old(reg[..])
      ensures (op == "ADD" || op == "MUL") && IsReg(regA) && IsReg(regB) ==>
        st == Normal &&
        reg[..] == old(reg[..])[regA := if op == "ADD" then old(reg[regA]) + old(reg[regB])
                                        else old(reg[regA]) * old(reg[regB])]
    {
      if op != "ADD" && op != "MUL" {
        return Faulted(UnsupportedOperation(op));
      }
      if !IsReg(regA) {
        return Faulted(RegIndex(regA));
      }
      if !IsReg(regB) {
        return Faulted(RegIndex(regB));
      }
      if op == "ADD" {
        reg[regA] := reg[regA] + reg[regB];
      } else {
        reg[regA] := reg[regA] * reg[regB];
      }
      st := Normal;
    }

    /** One fetch-decode-execute cycle of `run`. */
    method Step() returns (st: Status)
      requires Valid()
      modifies this, ram, reg, fl
      ensures Valid()
      ensures Transition(State(), st) == Exec(old(State()))
    {
      if !CanFetch(pc) {
        return Faulted(RamIndex(FetchFault(pc)));
      }
      var ir := RamRead(pc);
      var operand1 := RamRead(pc + 1);
      var operand2 := RamRead(pc + 2);
      st := Normal;
      match Decode(ir) {
        case None =>
          output := output + [UnknownInstructionMessage];
          st := Exited(1);
        case Some(Ldi) =>
          if !IsReg(operand1) {
            return Faulted(RegIndex(operand1));
          }
          reg[operand1] := operand2;
          pc := pc + 3;
        case Some(Prn) =>
          if !IsReg(operand1) {
            return Faulted(RegIndex(operand1));
          }
          output := output + [Value(reg[operand1])];
          pc := pc + 2;
        case Some(Hlt) =>
          running := false;
          pc := pc + 1;
        case Some(Mul) =>
          if !IsReg(operand1) {
            return Faulted(RegIndex(operand1));
          }
          if !IsReg(operand2) {
            return Faulted(RegIndex(operand2));
          }
          reg[operand1] := reg[operand1] * reg[operand2];
          pc := pc + 3;
        case Some(Push) =>
          if !IsReg(operand1) {
            return Faulted(RegIndex(operand1));
          }
          if !IsAddr(reg[SP] - 1) {
            return Faulted(RamIndex(reg[SP] - 1));
          }
          reg[SP] := reg[SP] - 1;
          var value := reg[operand1];
          var top := reg[SP];
          ram[top] := value;
          pc := pc + 2;
        case Some(Pop) =>
          if !IsAddr(reg[SP]) {
            return Faulted(RamIndex(reg[SP]));
          }
          if !IsReg(operand1) {
            return Faulted(RegIndex(operand1));
          }
          var value := ram[reg[SP]];
          reg[operand1] := value;
          reg[SP] := reg[SP] + 1;
          pc := pc + 2;
        case Some(Cmp) =>
          if !IsReg(operand1) {
            return Faulted(RegIndex(operand1));
          }
          if !IsReg(operand2) {
            return Faulted(RegIndex(operand2));
          }
          if reg[operand1] > reg[operand2] {
            fl[GREATER] := 1;
          } else if reg[operand1] < reg[operand2] {
            fl[LESS] := 1;
          } else {
            fl[EQUAL] := 1;
          }
          pc := pc + 3;
        case Some(Jeq) =>
          if fl[EQUAL] == 1 {
            if !IsReg(operand1) {
              return Faulted(RegIndex(operand1));
            }
            pc := reg[operand1];
          } else {
            pc := pc + 2;
          }
        case Some(Jmp) =>
          if !IsReg(operand1) {
            return Faulted(RegIndex(operand1));
          }
          pc := reg[operand1];
        case Some(Jne) =>
          if fl[EQUAL] == 0 {
            if !IsReg(operand1) {
              return Faulted(RegIndex(operand1));
            }
            pc := reg[operand1];
          } else {
            pc := pc + 2;
          }
      }
    }

    /**
     `run`: set the running flag, then execute cycles while it stays set, at
     most `fuel` of them; an exit or a fault ends the run at once.
     */
    method Run(fuel: nat) returns (st: Status)
      requires Valid()
      modifies this, ram, reg, fl
      ensures Valid()
      ensures Transition(State(), st) == RunSpec(old(State()), fuel)
    {
      running := true;
      ghost var start := State();
      assert start == old(State()).(running := true);
      var n := fuel;
      st := Normal;
      while running && n > 0
        invariant Valid() && st == Normal
        invariant Loop(State(), n) == Loop(start, fuel)
        decreases n
      {
        st := Step();
        if st != Normal {
          return;
        }
        n := n - 1;
      }
    }

    /**
     `load` on a program text already split into lines: each number goes to
     the next address from 0. A malformed token prints a message and exits
     with status 1; a 257th number overflows memory.
     */
    method Load(lines: seq<string>) returns (st: Status)
      requires Valid()
      modifies this`output, ram
      ensures Valid()
      ensures LoadResult(ram[..], output, st) == LoadLines(ParseAll(lines), old(ram[..]), 0, old(output))
    {
      ghost var ps := ParseAll(lines);
      var address := 0;
      var i := 0;
      assert ps[0..] == ps;
      while i < |lines|
        invariant Valid()
        invariant 0 <= i <= |lines| && 0 <= address <= RAM_SIZE
        invariant LoadLines(ps[i..], ram[..], address, output) == LoadLines(ps, old(ram[..]), 0, old(output))
      {
        var parsed := ParseLine(lines[i]);
        assert ps[i..][1..] == ps[i + 1..];
        match parsed {
          case Blank =>
          case Bad(token) =>
            output := output + [InvalidNumberMessage(token)];
            return Exited(1);
          case Byte(v) =>
            if address >= RAM_SIZE {
              return Faulted(RamIndex(address));
            }
            ram[address] := v;
            address := address + 1;
        }
        i := i + 1;
      }
      assert ps[i..] == [];
      st := Normal;
    }
  }

  /**
   The start of the program: `CPU()` followed by `load` of a program text
   written one 8-digit binary literal per line leaves exactly the machine
   `Properties.Loaded` describes.
   */
  method Boot(image: seq<nat>) returns (c: CPU, st: Status)
    requires |image| <= RAM_SIZE && forall i :: 0 <= i < |image| ==> image[i] < 256
    ensures st == Normal && c.Valid() && c.State() == Properties.Loaded(image)
  {
    c := new CPU();
    ghost var ram0 := c.ram[..];
    st := c.Load(Render(image));
    ImageOfRender(image);
    LoadImage(Render(image), ram0, []);
    var m := Properties.Loaded(image);
    assert c.ram[..] == m.ram by {
      forall a | 0 <= a < RAM_SIZE ensures c.ram[a] == m.ram[a] {
        if a < |image| {
          assert m.ram[..|image|][a] == image[a];
        }
      }
    }
    assert c.reg[..] == m.reg;
    assert c.fl[..] == m.fl;
  }
}
