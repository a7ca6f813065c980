/**
 The LS8 instruction bytes and the decoder of the simulator's dispatch chain.

 Fourteen opcode constants are declared, but the dispatch chain of `run`
 recognises only ten of them: ADD, PRA, CALL and RET fall through to the
 unknown-instruction branch.
 */
module Opcodes {

  datatype Option<T> = None | Some(value: T)

  const LDI: int := 0x82   // 0b10000010
  const PRN: int := 0x47   // 0b01000111
  const HLT: int := 0x01   // 0b00000001
  const MUL: int := 0xA2   // 0b10100010
  const ADD: int := 0xA0   // 0b10100000
  const PUSH: int := 0x45  // 0b01000101
  const POP: int := 0x46   // 0b01000110
  const CALL: int := 0x50  // 0b01010000
  const RET: int := 0x11   // 0b00010001
  const CMP: int := 0xA7   // 0b10100111
  const JEQ: int := 0x55   // 0b01010101
  const PRA: int := 0x48   // 0b01001000
  const JMP: int := 0x54   // 0b01010100
  const JNE: int := 0x56   // 0b01010110

  /** The instructions that the dispatch chain actually handles. */
  datatype Op = Ldi | Prn | Hlt | Mul | Push | Pop | Cmp | Jeq | Jmp | Jne

  /** The byte that selects each handled instruction. */
  function Encode(op: Op): (ir: int)
    ensures 0 <= ir < 256
  {
    match op
    case Ldi => LDI
    case Prn => PRN
    case Hlt => HLT
    case Mul => MUL
    case Push => PUSH
    case Pop => POP
    case Cmp => CMP
    case Jeq => JEQ
    case Jmp => JMP
    case Jne => JNE
  }

  /**
   The dispatch chain of `run`, compared in the source's order; `None` is its
   final `else`, the unknown-instruction branch.
   */
  function Decode(ir: int): (r: Option<Op>)
    ensures r.Some? ==> Encode(r.value) == ir
    ensures r.None? <==> forall op: Op :: Encode(op) != ir
  {
    if ir == LDI then Some(Ldi)
    else if ir == PRN then Some(Prn)
    else if ir == HLT then Some(Hlt)
    else if ir == MUL then Some(Mul)
    else if ir == PUSH then Some(Push)
    else if ir == POP then Some(Pop)
    else if ir == CMP then Some(Cmp)
    else if ir == JEQ then Some(Jeq)
    else if ir == JMP then Some(Jmp)
    else if ir == JNE then Some(Jne)
    else None
  }

  /** Decoding inverts encoding: every handled opcode is dispatched to its own handler. */
  lemma DecodeEncode(op: Op)
    ensures Decode(Encode(op)) == Some(op)
  {
    match op
    case Ldi =>
    case Prn =>
    case Hlt =>
    case Mul =>
    case Push =>
    case Pop =>
    case Cmp =>
    case Jeq =>
    case Jmp =>
    case Jne =>
  }

  /** ADD, PRA, CALL and RET are declared opcodes that the dispatch chain does not handle. */
  lemma UndispatchedOpcodes()
    ensures Decode(ADD) == None && Decode(PRA) == None
    ensures Decode(CALL) == None && Decode(RET) == None
  {
  }
}
