/** The x86-64 instructions that src/c/disasm.c knows: what a byte sequence decodes to, and
    how instructions are encoded (sections 2.1.3 and 2.2.1 of the Intel SDM volume 2A). */
module X86 {

  type Byte = b: int | 0 <= b < 256
  type Code = seq<Byte>

  datatype Option<T> = None | Some(value: T)

  /** The r/m operand. Registers are numbered 0 to 15; an index has a scale of 2 to the
      `shift`. */
  datatype Rm =
    | Direct(reg: nat)
    | Memory(base: Option<nat>, index: Option<Index>, disp: int)
    | RipRelative(disp: int)

  datatype Index = Index(reg: nat, shift: nat)

  /** `wide` is REX.W: 64-bit operands. */
  datatype Instruction =
    | ToRm(store: ToRmOp, rm: Rm, reg: nat, wide: bool)
    | FromRm(load: FromRmOp, reg: nat, rm: Rm, wide: bool)
    | Group1(op: nat, rm: Rm, imm: int, wide: bool)
    | MovImm(rm: Rm, imm: int, wide: bool)
    | LoadImm(reg: nat, value: nat, wide: bool)
    | Push(reg: nat)
    | Pop(reg: nat)
    | Call(rel: int)
    | Jmp(rel: int)
    | Jcc(cc: nat, rel: int)
    | Group3(op: nat, rm: Rm, imm: int, wide: bool)
    | Group5(op: nat, rm: Rm, wide: bool)
    | SetCc(cc: nat, rm: Rm)
    | LongNop(rm: Rm, wide: bool)
    | Ret | Leave | Nop | Int3 | Cpuid

  datatype ToRmOp = AluTo(op: nat) | Test | MovTo

  datatype FromRmOp = AluFrom(op: nat) | MovFrom | Lea | Imul | Movzx(word: bool) | Movsx(word: bool)

  // ---------------------------------------------------------------- reading bytes

  /** A value and the position after it; None when the code ends first. */
  datatype Read<T> = Cut | Got(value: T, pos: nat)

  function U8(code: Code, pos: nat): (r: Read<Byte>)
    requires pos <= |code|
    ensures r.Got? ==> pos < r.pos <= |code|
  { if pos < |code| then Got(code[pos], pos + 1) else Cut }

  /** The number that bytes stand for, least significant first. */
  function Number(bytes: Code): nat { if bytes == [] then 0 else bytes[0] + 256 * Number(bytes[1..]) }

  /** `n` bytes as a number. */
  function Little(code: Code, pos: nat, n: nat): (r: Read<nat>)
    requires pos <= |code|
    ensures r.Got? ==> r.pos == pos + n <= |code|
  {
    if pos + n <= |code| then Got(Number(code[pos..pos + n]), pos + n) else Cut
  }

  const TWO31: nat := 0x8000_0000
  const TWO32: nat := 0x1_0000_0000

  function Signed8(v: nat): int { if v < 128 then v else v - 256 }

  function Signed32(v: nat): int { if v < TWO31 then v else v - TWO32 }

  function I8(code: Code, pos: nat): (r: Read<int>)
    requires pos <= |code|
    ensures r.Got? ==> pos < r.pos <= |code|
  {
    var b := U8(code, pos);
    if b.Cut? then Cut else Got(Signed8(b.value), b.pos)
  }

  function I32(code: Code, pos: nat): (r: Read<int>)
    requires pos <= |code|
    ensures r.Got? ==> pos < r.pos <= |code|
  {
    var b := Little(code, pos, 4);
    if b.Cut? then Cut else Got(Signed32(b.value), b.pos)
  }

  // ---------------------------------------------------------------- REX, ModRM, SIB

  function Bit(b: nat, shift: nat): nat
    requires shift < 4
  {
    (match shift case 0 => b case 1 => b / 2 case 2 => b / 4 case _ => b / 8) % 2
  }

  predicate IsRex(b: Byte) { 0x40 <= b <= 0x4F }

  /** The position after the REX prefixes. */
  function AfterRex(code: Code, pos: nat): (end: nat)
    requires pos <= |code|
    ensures pos <= end <= |code| && (end < |code| ==> !IsRex(code[end]))
    decreases |code| - pos
  {
    if pos < |code| && IsRex(code[pos]) then AfterRex(code, pos + 1) else pos
  }

  /** The last REX prefix counts. */
  function Rex(code: Code, pos: nat): Byte
    requires pos <= |code|
  {
    if AfterRex(code, pos) > pos then code[AfterRex(code, pos) - 1] else 0
  }

  function Extend(low: nat, bit: nat): nat { low + 8 * bit }

  /** The r/m operand and the register of a ModRM byte, with its SIB byte and displacement. */
  datatype ModRm = ModRm(rm: Rm, reg: nat)

  function DecodeModRm(code: Code, pos: nat, rex: Byte): (r: Read<ModRm>)
    requires pos <= |code|
    ensures r.Got? ==> pos < r.pos <= |code|
  {
    var b := U8(code, pos);
    if b.Cut? then Cut
    else
      DecodeRm(code, b.pos, rex, b.value / 64, b.value % 8, Extend(b.value / 8 % 8, Bit(rex, 2)))
  }

  /** The r/m operand, from the mod and r/m fields of the ModRM byte. */
  function DecodeRm(code: Code, pos: nat, rex: Byte, mod: nat, rm: nat, reg: nat): (r: Read<ModRm>)
    requires pos <= |code|
    ensures r.Got? ==> pos <= r.pos <= |code|
  {
    if mod == 3 then Got(ModRm(Direct(Extend(rm, Bit(rex, 0))), reg), pos)
    else if rm == 4 then DecodeSib(code, pos, rex, mod, reg)
    else if rm == 5 && mod == 0 then
      var d := I32(code, pos);
      if d.Cut? then Cut else Got(ModRm(RipRelative(d.value), reg), d.pos)
    else
      var d := Displacement(code, pos, mod);
      if d.Cut? then Cut else Got(ModRm(Memory(Some(Extend(rm, Bit(rex, 0))), None, d.value), reg), d.pos)
  }

  function Displacement(code: Code, pos: nat, mod: nat): (r: Read<int>)
    requires pos <= |code|
    ensures r.Got? ==> pos <= r.pos <= |code|
  {
    if mod == 1 then I8(code, pos) else if mod == 2 then I32(code, pos) else Got(0, pos)
  }

  function DecodeSib(code: Code, pos: nat, rex: Byte, mod: nat, reg: nat): (r: Read<ModRm>)
    requires pos <= |code|
    ensures r.Got? ==> pos < r.pos <= |code|
  {
    var b := U8(code, pos);
    if b.Cut? then Cut
    else DecodeAddress(code, b.pos, rex, mod, reg, b.value / 64, Extend(b.value / 8 % 8, Bit(rex, 1)), b.value % 8)
  }

  /** The address, from the fields of the SIB byte: register 4 is no index, and base 5 without
      a displacement size stands for a 32-bit displacement alone. */
  function DecodeAddress(code: Code, pos: nat, rex: Byte, mod: nat, reg: nat, shift: nat, i: nat,
          base: nat): (r: Read<ModRm>)
    requires pos <= |code|
    ensures r.Got? ==> pos <= r.pos <= |code|
  {
    var index := if i == 4 then None else Some(Index(i, shift));
    var bare := base == 5 && mod == 0;
    var d := if bare then I32(code, pos) else Displacement(code, pos, mod);
    if d.Cut? then Cut
    else Got(ModRm(Memory(if bare then None else Some(Extend(base, Bit(rex, 0))), index, d.value), reg), d.pos)
  }

  // ---------------------------------------------------------------- instructions

  /** The instruction after its prefixes: None for an opcode the table does not have. */
  function DecodeOpcode(code: Code, pos: nat, rex: Byte): (r: Read<Option<Instruction>>)
    requires pos <= |code|
    ensures r.Got? ==> pos < r.pos <= |code|
  {
    var b := U8(code, pos);
    if b.Cut? then Cut
    else if b.value == 0x0F then
      var c := U8(code, b.pos);
      if c.Cut? then Cut else TwoByte(code, c.pos, c.value, DecodeModRm(code, c.pos, rex), Bit(rex, 3) == 1)
    else OneByte(code, b.pos, b.value, DecodeModRm(code, b.pos, rex), rex)
  }

  /** `m` is the operand that stands at `pos`, if the opcode has one. */
  function OneByte(code: Code, pos: nat, op: Byte, m: Read<ModRm>, rex: Byte): (r: Read<Option<Instruction>>)
    requires pos <= |code| && (m.Got? ==> pos < m.pos <= |code|)
    ensures r.Got? ==> pos <= r.pos <= |code|
  {
    var wide := Bit(rex, 3) == 1;
    if op < 0x40 && op % 8 == 1 then ModRmReg(m, AluTo(op / 8), wide)
    else if op == 0x85 then ModRmReg(m, Test, wide)
    else if op == 0x89 then ModRmReg(m, MovTo, wide)
    else if op < 0x40 && op % 8 == 3 then RegModRm(m, AluFrom(op / 8), wide)
    else if op == 0x8B then RegModRm(m, MovFrom, wide)
    else if op == 0x8D then RegModRm(m, Lea, wide)
    else if 0x50 <= op <= 0x57 then Got(Some(Push(Extend(op - 0x50, Bit(rex, 0)))), pos)
    else if 0x58 <= op <= 0x5F then Got(Some(Pop(Extend(op - 0x58, Bit(rex, 0)))), pos)
    else if op == 0x83 || op == 0x81 then DecodeGroup1(code, pos, m, op == 0x83, wide)
    else if op == 0xC7 then DecodeMovImm(code, m, wide)
    else if 0xB8 <= op <= 0xBF then DecodeLoadImm(code, pos, Extend(op - 0xB8, Bit(rex, 0)), wide)
    else if op == 0xC3 then Got(Some(Ret), pos)
    else if op == 0xC9 then Got(Some(Leave), pos)
    else if op == 0x90 then Got(Some(Nop), pos)
    else if op == 0xCC then Got(Some(Int3), pos)
    else if op == 0xE8 || op == 0xE9 || op == 0xEB || 0x70 <= op <= 0x7F then DecodeBranch(code, pos, op)
    else if op == 0xFF then DecodeGroup5(code, pos, m, wide)
    else if op == 0xF7 then DecodeGroup3(code, pos, m, wide)
    else Got(None, pos)
  }

  function ModRmReg(m: Read<ModRm>, op: ToRmOp, wide: bool): Read<Option<Instruction>> {
    if m.Cut? then Cut else Got(Some(ToRm(op, m.value.rm, m.value.reg, wide)), m.pos)
  }

  function RegModRm(m: Read<ModRm>, op: FromRmOp, wide: bool): Read<Option<Instruction>> {
    if m.Cut? then Cut else Got(Some(FromRm(op, m.value.reg, m.value.rm, wide)), m.pos)
  }

  /** The register field of a ModRM byte, which selects the operation of a group. */
  function Digit(code: Code, pos: nat): nat
    requires pos < |code|
  {
    code[pos] / 8 % 8
  }

  function DecodeGroup1(code: Code, pos: nat, m: Read<ModRm>, short: bool, wide: bool): (r: Read<Option<Instruction>>)
    requires m.Got? ==> pos < m.pos <= |code|
    ensures r.Got? ==> pos < r.pos <= |code|
  {
    if m.Cut? then Cut
    else
      var i := if short then I8(code, m.pos) else I32(code, m.pos);
      if i.Cut? then Cut else Got(Some(Group1(Digit(code, pos), m.value.rm, i.value, wide)), i.pos)
  }

  function DecodeMovImm(code: Code, m: Read<ModRm>, wide: bool): (r: Read<Option<Instruction>>)
    requires m.Got? ==> m.pos <= |code|
    ensures r.Got? ==> m.Got? && m.pos < r.pos <= |code|
  {
    if m.Cut? then Cut
    else
      var i := I32(code, m.pos);
      if i.Cut? then Cut else Got(Some(MovImm(m.value.rm, i.value, wide)), i.pos)
  }

  function DecodeLoadImm(code: Code, pos: nat, reg: nat, wide: bool): (r: Read<Option<Instruction>>)
    requires pos <= |code|
    ensures r.Got? ==> pos < r.pos <= |code|
  {
    var i := Little(code, pos, if wide then 8 else 4);
    if i.Cut? then Cut else Got(Some(LoadImm(reg, i.value, wide)), i.pos)
  }

  function DecodeBranch(code: Code, pos: nat, op: Byte): (r: Read<Option<Instruction>>)
    requires pos <= |code|
    ensures r.Got? ==> pos <= r.pos <= |code|
  {
    var d := if op == 0xE8 || op == 0xE9 then I32(code, pos) else I8(code, pos);
    if d.Cut? then Cut
    else if op == 0xE8 then Got(Some(Call(d.value)), d.pos)
    else if op == 0xE9 || op == 0xEB then Got(Some(Jmp(d.value)), d.pos)
    else if 0x70 <= op <= 0x7F then Got(Some(Jcc(op - 0x70, d.value)), d.pos)
    else Got(None, pos)
  }

  /** inc, dec, call, jmp and push; the other operations of the group are not supported. The
      last three have 64-bit operands without REX.W. */
  function DecodeGroup5(code: Code, pos: nat, m: Read<ModRm>, wide: bool): (r: Read<Option<Instruction>>)
    requires m.Got? ==> pos < m.pos <= |code|
    ensures r.Got? ==> pos < r.pos <= |code|
  {
    if m.Cut? then Cut
    else
      var op := Digit(code, pos);
      if op == 3 || op == 5 || op == 7 then Got(None, m.pos)
      else Got(Some(Group5(op, m.value.rm, op >= 2 || wide)), m.pos)
  }

  /** Only test has an immediate operand. */
  function DecodeGroup3(code: Code, pos: nat, m: Read<ModRm>, wide: bool): (r: Read<Option<Instruction>>)
    requires m.Got? ==> pos < m.pos <= |code|
    ensures r.Got? ==> pos < r.pos <= |code|
  {
    if m.Cut? then Cut
    else
      var op := Digit(code, pos);
      var i := if op == 0 then I32(code, m.pos) else Got(0, m.pos);
      if i.Cut? then Cut else Got(Some(Group3(op, m.value.rm, i.value, wide)), i.pos)
  }

  function TwoByte(code: Code, pos: nat, op: Byte, m: Read<ModRm>, wide: bool): (r: Read<Option<Instruction>>)
    requires pos <= |code| && (m.Got? ==> pos < m.pos <= |code|)
    ensures r.Got? ==> pos <= r.pos <= |code|
  {
    if 0x80 <= op <= 0x8F then
      var d := I32(code, pos);
      if d.Cut? then Cut else Got(Some(Jcc(op - 0x80, d.value)), d.pos)
    else if 0x90 <= op <= 0x9F then
      if m.Cut? then Cut else Got(Some(SetCc(op - 0x90, m.value.rm)), m.pos)
    else if op == 0x1F then
      if m.Cut? then Cut else Got(Some(LongNop(m.value.rm, wide)), m.pos)
    else if op == 0xA2 then Got(Some(Cpuid), pos)
    else if op == 0xAF then RegModRm(m, Imul, wide)
    else if op == 0xB6 || op == 0xB7 then RegModRm(m, Movzx(op == 0xB7), wide)
    else if op == 0xBE || op == 0xBF then RegModRm(m, Movsx(op == 0xBF), wide)
    else Got(None, pos)
  }

  /** The instruction at a position, prefixes included. */
  function Decode(code: Code, pos: nat): (r: Read<Option<Instruction>>)
    requires pos <= |code|
    ensures r.Got? ==> pos < r.pos <= |code|
  {
    DecodeOpcode(code, AfterRex(code, pos), Rex(code, pos))
  }

  // ---------------------------------------------------------------- embedded strings

  const OS_DISASM_MAX_DATA_BYTES: int := 256

  predicate Printable(b: Byte) { 0x20 <= b <= 0x7E }

  /** The string, NUL included, that a jump right before `offset` jumps over; 0 if there is
      none. */
  function EmbeddedStringLength(code: Code, offset: nat): (len: nat)
    requires offset <= |code|
    ensures len > 0 ==> offset + len <= |code| && code[offset + len - 1] == 0
    ensures len > 0 ==> forall i :: offset <= i < offset + len - 1 ==> Printable(code[i])
  {
    if offset < 5 || code[offset - 5] != 0xE9 then 0
    else
      var rel := I32(code, offset - 4);
      if rel.Cut? || rel.value < 1 || rel.value > OS_DISASM_MAX_DATA_BYTES || offset + rel.value > |code| then 0
      else if code[offset + rel.value - 1] != 0 then 0
      else if forall i :: offset <= i < offset + rel.value - 1 ==> Printable(code[i]) then rel.value
      else 0
  }

  // ---------------------------------------------------------------- items

  datatype Item = Data(length: nat) | Insn(insn: Instruction, length: nat) | Bad

  /** One item: an embedded string, an instruction, or one byte that is neither. */
  function ItemAt(code: Code, offset: nat): (item: Item)
    requires offset < |code|
    ensures 1 <= ItemLength(item) <= |code| - offset
  {
    var n := EmbeddedStringLength(code, offset);
    if n > 0 then Data(n) else DecodedItem(Decode(code, offset), offset)
  }

  /** What does not decode is one bad byte. */
  function DecodedItem(d: Read<Option<Instruction>>, offset: nat): Item
    requires d.Got? ==> offset < d.pos
  {
    if d.Cut? || d.value.None? then Bad else Insn(d.value.value, d.pos - offset)
  }

  function ItemLength(item: Item): nat {
    match item
    case Data(n) => n
    case Insn(_, n) => n
    case Bad => 1
  }
}
