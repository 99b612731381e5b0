/** Encoding instructions, and the decoder of X86 as its inverse. */
module Encoder {
  import opened X86

  /** The choices an encoding leaves open: a REX prefix that is not needed, a SIB byte without
      an index (and its unused scale), the size of the displacement and of the immediate. */
  datatype Shape = Shape(force: bool, sib: bool, shift: nat, disp: nat, short: bool)

  predicate Fits8(d: int) { -128 <= d < 128 }

  predicate Fits32(d: int) { -0x8000_0000 <= d < 0x8000_0000 }

  function Unsigned8(d: int): Byte
    requires Fits8(d)
  {
    if d < 0 then d + 256 else d
  }

  function Unsigned32(d: int): nat
    requires Fits32(d)
  {
    if d < 0 then d + TWO32 else d
  }

  function LittleBytes(v: nat, n: nat): (bytes: Code)
    ensures |bytes| == n
  {
    if n == 0 then [] else [v % 256] + LittleBytes(v / 256, n - 1)
  }

  function Pow256(n: nat): nat { if n == 0 then 1 else 256 * Pow256(n - 1) }

  /** These bytes are in the code at this position. */
  predicate At(code: Code, pos: nat, bytes: Code) {
    pos + |bytes| <= |code| && code[pos..pos + |bytes|] == bytes
  }

  lemma AtSplit(code: Code, pos: nat, a: Code, b: Code)
    requires At(code, pos, a + b)
    ensures At(code, pos, a) && At(code, pos + |a|, b)
  {
    assert code[pos..pos + |a|] == (a + b)[..|a|] == a;
    assert code[pos + |a|..pos + |a| + |b|] == (a + b)[|a|..] == b;
  }

  lemma AtByte(code: Code, pos: nat, b: Byte)
    requires At(code, pos, [b])
    ensures pos < |code| && code[pos] == b && U8(code, pos) == Got(b, pos + 1)
  {
    assert code[pos] == code[pos..pos + 1][0];
  }

  lemma {:induction false} NumberReads(v: nat, n: nat)
    requires v < Pow256(n)
    ensures Number(LittleBytes(v, n)) == v
  {
    if n > 0 {
      NumberReads(v / 256, n - 1);
      assert LittleBytes(v, n)[1..] == LittleBytes(v / 256, n - 1);
    }
  }

  lemma LittleReads(code: Code, pos: nat, v: nat, n: nat)
    requires pos <= |code| && At(code, pos, LittleBytes(v, n)) && v < Pow256(n)
    ensures Little(code, pos, n) == Got(v, pos + n)
  {
    NumberReads(v, n);
  }

  lemma I32Reads(code: Code, pos: nat, d: int)
    requires pos <= |code| && Fits32(d) && At(code, pos, LittleBytes(Unsigned32(d), 4))
    ensures I32(code, pos) == Got(d, pos + 4)
  {
    assert Pow256(4) == TWO32;
    LittleReads(code, pos, Unsigned32(d), 4);
  }

  lemma I8Reads(code: Code, pos: nat, d: int)
    requires pos <= |code| && Fits8(d) && At(code, pos, [Unsigned8(d)])
    ensures I8(code, pos) == Got(d, pos + 1)
  {
    AtByte(code, pos, Unsigned8(d));
  }

  // ---------------------------------------------------------------- REX

  /** The low half of a REX prefix: W, R, X and B. */
  datatype Bits = Bits(w: bool, r: bool, x: bool, b: bool)

  function One(bit: bool): nat { if bit then 1 else 0 }

  function Low(bits: Bits): nat { 8 * One(bits.w) + 4 * One(bits.r) + 2 * One(bits.x) + One(bits.b) }

  function Prefix(bits: Bits, force: bool): Code {
    if Low(bits) > 0 || force then [0x40 + Low(bits)] else []
  }

  function RexByte(bits: Bits, force: bool): Byte {
    if Low(bits) > 0 || force then 0x40 + Low(bits) else 0
  }

  lemma RexFields(bits: Bits, force: bool)
    ensures var rex := RexByte(bits, force);
            Bit(rex, 0) == One(bits.b) && Bit(rex, 1) == One(bits.x) && Bit(rex, 2) == One(bits.r)
                && Bit(rex, 3) == One(bits.w)
  {
  }

  /** At most one prefix, and then an opcode that is none. */
  lemma PrefixReads(code: Code, pos: nat, bits: Bits, force: bool, op: Byte)
    requires pos <= |code| && At(code, pos, Prefix(bits, force) + [op]) && !IsRex(op)
    ensures AfterRex(code, pos) == pos + |Prefix(bits, force)| && Rex(code, pos) == RexByte(bits, force)
  {
    var p := Prefix(bits, force);
    AtSplit(code, pos, p, [op]);
    AtByte(code, pos + |p|, op);
    if p != [] {
      AtByte(code, pos, 0x40 + Low(bits));
      assert AfterRex(code, pos) == AfterRex(code, pos + 1);
    }
  }

  // ---------------------------------------------------------------- ModRM

  function High(reg: nat): bool { reg >= 8 }

  function BaseBit(rm: Rm): bool {
    match rm
    case Direct(r) => High(r)
    case Memory(Some(b), _, _) => High(b)
    case _ => false
  }

  function IndexBit(rm: Rm): bool { rm.Memory? && rm.index.Some? && High(rm.index.value.reg) }

  function Sib(index: Option<Index>, shift: nat, base: nat): Byte
    requires base < 8 && shift < 4 && (index.Some? ==> index.value.shift < 4)
  {
    if index.Some? then index.value.shift * 64 + index.value.reg % 8 * 8 + base else shift * 64 + 32 + base
  }

  function Mod(disp: nat): nat { if disp == 0 then 0 else if disp == 1 then 1 else 2 }

  function DispBytes(d: int, size: nat): Code
    requires if size == 1 then Fits8(d) else size == 0 || Fits32(d)
  {
    if size == 0 then [] else if size == 1 then [Unsigned8(d)] else LittleBytes(Unsigned32(d), 4)
  }

  /** The operand exists and the shape can express it. */
  predicate Encodable(rm: Rm, s: Shape) {
    s.shift < 4 &&
    match rm
    case Direct(r) => r < 16
    case RipRelative(d) => Fits32(d)
    case Memory(base, index, d) =>
      && (index.Some? ==> index.value.reg < 16 && index.value.reg != 4 && index.value.shift < 4)
      && match base
         case None => Fits32(d)
         case Some(b) =>
           && b < 16 && (index.None? && !s.sib ==> b % 8 != 4)
           && (if s.disp == 0 then d == 0 && b % 8 != 5 else if s.disp == 1 then Fits8(d) else Fits32(d))
  }

  lemma DispReads(code: Code, pos: nat, d: int, size: nat)
    requires pos <= |code| && (if size == 0 then d == 0 else if size == 1 then Fits8(d) else Fits32(d))
    requires At(code, pos, DispBytes(d, size))
    ensures Displacement(code, pos, Mod(size)) == Got(d, pos + |DispBytes(d, size)|)
  {
    if size == 1 { I8Reads(code, pos, d); } else if size != 0 { I32Reads(code, pos, d); }
  }

  /** The fields of a ModRM or SIB byte. */
  lemma Fields(high: nat, middle: nat, low: nat)
    requires high < 4 && middle < 8 && low < 8
    ensures var b := high * 64 + middle * 8 + low;
            b < 256 && b / 64 == high && b / 8 % 8 == middle && b % 8 == low
  {
    var b := high * 64 + middle * 8 + low;
    assert b / 8 == high * 8 + middle;
  }

  /** A register number is its low three bits and its bit in the prefix. */
  lemma Halves(reg: nat)
    requires reg < 16
    ensures Extend(reg % 8, One(High(reg))) == reg
  {
  }

  lemma SibFields(code: Code, pos: nat, index: Option<Index>, shift: nat, low: nat, rex: Byte)
    requires pos <= |code| && low < 8 && shift < 4
    requires index.Some? ==> index.value.reg < 16 && index.value.reg != 4 && index.value.shift < 4
    requires At(code, pos, [Sib(index, shift, low)])
    requires Bit(rex, 1) == One(index.Some? && High(index.value.reg))
    ensures U8(code, pos) == Got(Sib(index, shift, low), pos + 1)
    ensures var s := Sib(index, shift, low);
            && s % 8 == low
            && (index.Some? ==> s / 64 == index.value.shift && Extend(s / 8 % 8, Bit(rex, 1)) == index.value.reg)
            && (index.None? ==> Extend(s / 8 % 8, Bit(rex, 1)) == 4)
  {
    AtByte(code, pos, Sib(index, shift, low));
    if index.Some? {
      Fields(index.value.shift, index.value.reg % 8, low);
      Halves(index.value.reg);
    } else {
      Fields(shift, 4, low);
    }
  }

  /** A SIB byte and what follows it, for an address with a base register. */
  lemma SibReads(code: Code, pos: nat, base: nat, index: Option<Index>, d: int, reg: nat, s: Shape, rex: Byte)
    requires Encodable(Memory(Some(base), index, d), s) && pos <= |code| && (index.Some? || s.sib)
    requires Bit(rex, 0) == One(High(base)) && Bit(rex, 1) == One(index.Some? && High(index.value.reg))
    requires At(code, pos, [Sib(index, s.shift, base % 8)] + DispBytes(d, s.disp))
    ensures DecodeSib(code, pos, rex, Mod(s.disp), reg)
            == Got(ModRm(Memory(Some(base), index, d), reg), pos + 1 + |DispBytes(d, s.disp)|)
  {
    AtSplit(code, pos, [Sib(index, s.shift, base % 8)], DispBytes(d, s.disp));
    SibFields(code, pos, index, s.shift, base % 8, rex);
    Halves(base);
    DispReads(code, pos + 1, d, s.disp);
  }

  /** The same for an address without one. */
  lemma BareSibReads(code: Code, pos: nat, index: Option<Index>, d: int, reg: nat, s: Shape, rex: Byte)
    requires Encodable(Memory(None, index, d), s) && pos <= |code|
    requires Bit(rex, 1) == One(index.Some? && High(index.value.reg))
    requires At(code, pos, [Sib(index, s.shift, 5)] + LittleBytes(Unsigned32(d), 4))
    ensures DecodeSib(code, pos, rex, 0, reg) == Got(ModRm(Memory(None, index, d), reg), pos + 5)
  {
    AtSplit(code, pos, [Sib(index, s.shift, 5)], LittleBytes(Unsigned32(d), 4));
    SibFields(code, pos, index, s.shift, 5, rex);
    I32Reads(code, pos + 1, d);
  }

  /** The mod and r/m fields of an operand's ModRM byte. */
  function ModField(rm: Rm, s: Shape): nat {
    match rm
    case Direct(_) => 3
    case RipRelative(_) => 0
    case Memory(base, _, _) => if base.Some? then Mod(s.disp) else 0
  }

  function RmField(rm: Rm, s: Shape): nat {
    match rm
    case Direct(r) => r % 8
    case RipRelative(_) => 5
    case Memory(base, index, _) => if index.Some? || s.sib || base.None? then 4 else base.value % 8
  }

  /** What follows the ModRM byte. */
  function AfterModRm(rm: Rm, s: Shape): Code
    requires Encodable(rm, s)
  {
    match rm
    case Direct(_) => []
    case RipRelative(d) => LittleBytes(Unsigned32(d), 4)
    case Memory(None, index, d) => [Sib(index, s.shift, 5)] + LittleBytes(Unsigned32(d), 4)
    case Memory(Some(b), index, d) =>
      if index.Some? || s.sib then [Sib(index, s.shift, b % 8)] + DispBytes(d, s.disp) else DispBytes(d, s.disp)
  }

  /** The ModRM byte with `field` in the middle, the SIB byte and the displacement. */
  function EncodeRm(rm: Rm, field: nat, s: Shape): Code
    requires Encodable(rm, s) && field < 8
  {
    [ModField(rm, s) * 64 + field * 8 + RmField(rm, s)] + AfterModRm(rm, s)
  }

  lemma OperandReads(code: Code, pos: nat, rm: Rm, reg: nat, s: Shape, rex: Byte)
    requires Encodable(rm, s) && pos <= |code| && At(code, pos, AfterModRm(rm, s))
    requires Bit(rex, 0) == One(BaseBit(rm)) && Bit(rex, 1) == One(IndexBit(rm))
    ensures DecodeRm(code, pos, rex, ModField(rm, s), RmField(rm, s), reg) ==
            Got(ModRm(rm, reg), pos + |AfterModRm(rm, s)|)
  {
    match rm
    case Direct(r) => Halves(r);
    case RipRelative(d) => I32Reads(code, pos, d);
    case Memory(None, index, d) => BareSibReads(code, pos, index, d, reg, s, rex);
    case Memory(Some(b), index, d) =>
      if index.Some? || s.sib {
        SibReads(code, pos, b, index, d, reg, s, rex);
      } else {
        Halves(b);
        DispReads(code, pos, d, s.disp);
      }
  }

  /** The ModRM byte of an encoded operand. */
  lemma FirstByte(code: Code, pos: nat, rm: Rm, field: nat, s: Shape)
    requires Encodable(rm, s) && field < 8 && pos <= |code| && At(code, pos, EncodeRm(rm, field, s))
    ensures pos < |code| && code[pos] / 64 == ModField(rm, s) && code[pos] / 8 % 8 == field
            && code[pos] % 8 == RmField(rm, s)
    ensures At(code, pos + 1, AfterModRm(rm, s))
  {
    var b: Byte := ModField(rm, s) * 64 + field * 8 + RmField(rm, s);
    AtSplit(code, pos, [b], AfterModRm(rm, s));
    AtByte(code, pos, b);
    Fields(ModField(rm, s), field, RmField(rm, s));
  }

  /** Decoding an encoded operand gives back the operand and the register. */
  lemma RmReads(code: Code, pos: nat, rm: Rm, reg: nat, s: Shape, rex: Byte)
    requires Encodable(rm, s) && reg < 16 && pos <= |code| && At(code, pos, EncodeRm(rm, reg % 8, s))
    requires Bit(rex, 0) == One(BaseBit(rm)) && Bit(rex, 1) == One(IndexBit(rm)) && Bit(rex, 2) == One(High(reg))
    ensures DecodeModRm(code, pos, rex) == Got(ModRm(rm, reg), pos + |EncodeRm(rm, reg % 8, s)|)
  {
    FirstByte(code, pos, rm, reg % 8, s);
    Halves(reg);
    OperandReads(code, pos + 1, rm, reg, s, rex);
  }

  // ---------------------------------------------------------------- instructions

  function RmOf(i: Instruction): Option<Rm> {
    match i
    case ToRm(_, rm, _, _) => Some(rm)
    case FromRm(_, _, rm, _) => Some(rm)
    case Group1(_, rm, _, _) => Some(rm)
    case MovImm(rm, _, _) => Some(rm)
    case Group3(_, rm, _, _) => Some(rm)
    case Group5(_, rm, _) => Some(rm)
    case SetCc(_, rm) => Some(rm)
    case LongNop(rm, _) => Some(rm)
    case _ => None
  }

  /** The register field of the ModRM byte: a register, the operation of a group, or 0. */
  function FieldOf(i: Instruction): nat {
    match i
    case ToRm(_, _, reg, _) => reg
    case FromRm(_, reg, _, _) => reg
    case Group1(op, _, _, _) => op
    case Group3(op, _, _, _) => op
    case Group5(op, _, _) => op
    case _ => 0
  }

  function WideOf(i: Instruction): bool {
    match i
    case ToRm(_, _, _, wide) => wide
    case FromRm(_, _, _, wide) => wide
    case Group1(_, _, _, wide) => wide
    case MovImm(_, _, wide) => wide
    case LoadImm(_, _, wide) => wide
    case Group3(_, _, _, wide) => wide
    case Group5(op, _, wide) => op < 2 && wide
    case LongNop(_, wide) => wide
    case _ => false
  }

  /** A register in the low bits of the opcode. */
  function InOpcode(i: Instruction): nat {
    match i
    case LoadImm(reg, _, _) => reg
    case Push(reg) => reg
    case Pop(reg) => reg
    case _ => 0
  }

  function BitsOf(i: Instruction): Bits {
    Bits(WideOf(i), High(FieldOf(i)), RmOf(i).Some? && IndexBit(RmOf(i).value),
         High(InOpcode(i)) || (RmOf(i).Some? && BaseBit(RmOf(i).value)))
  }

  predicate Immediate(d: int, s: Shape) { if s.short then Fits8(d) else Fits32(d) }

  /** The supported instructions, with the operands and shapes they can have. */
  predicate Valid(i: Instruction, s: Shape) {
    && (RmOf(i).Some? ==> Encodable(RmOf(i).value, s)) && FieldOf(i) < 16 && InOpcode(i) < 16
    && match i
       case ToRm(op, _, _, _) => op.AluTo? ==> op.op < 8
       case FromRm(op, _, _, _) => op.AluFrom? ==> op.op < 8
       case Group1(op, _, imm, _) => op < 8 && Immediate(imm, s)
       case MovImm(_, imm, _) => Fits32(imm)
       case LoadImm(_, value, wide) => value < if wide then Pow256(8) else Pow256(4)
       case Call(rel) => Fits32(rel)
       case Jmp(rel) => Immediate(rel, s)
       case Jcc(cc, rel) => cc < 16 && Immediate(rel, s)
       case Group3(op, _, imm, _) => op < 8 && if op == 0 then Fits32(imm) else imm == 0
       case Group5(op, _, wide) => (op < 3 || op == 4 || op == 6) && (op >= 2 ==> wide)
       case SetCc(cc, _) => cc < 16
       case _ => true
  }

  function Opcode(i: Instruction, s: Shape): (op: Code)
    requires Valid(i, s)
    ensures op != [] && !IsRex(op[0])
  {
    match i
    case ToRm(op, _, _, _) => (match op case AluTo(k) => [8 * k + 1] case Test => [0x85] case MovTo => [0x89])
    case FromRm(op, _, _, _) =>
      (match op
       case AluFrom(k) => [8 * k + 3]
       case MovFrom => [0x8B]
       case Lea => [0x8D]
       case Imul => [0x0F, 0xAF]
       case Movzx(word) => [0x0F, if word then 0xB7 else 0xB6]
       case Movsx(word) => [0x0F, if word then 0xBF else 0xBE])
    case Group1(_, _, _, _) => [if s.short then 0x83 else 0x81]
    case MovImm(_, _, _) => [0xC7]
    case LoadImm(reg, _, _) => [0xB8 + reg % 8]
    case Push(reg) => [0x50 + reg % 8]
    case Pop(reg) => [0x58 + reg % 8]
    case Call(_) => [0xE8]
    case Jmp(_) => [if s.short then 0xEB else 0xE9]
    case Jcc(cc, _) => if s.short then [0x70 + cc] else [0x0F, 0x80 + cc]
    case Group3(_, _, _, _) => [0xF7]
    case Group5(_, _, _) => [0xFF]
    case SetCc(cc, _) => [0x0F, 0x90 + cc]
    case LongNop(_, _) => [0x0F, 0x1F]
    case Ret => [0xC3]
    case Leave => [0xC9]
    case Nop => [0x90]
    case Int3 => [0xCC]
    case Cpuid => [0x0F, 0xA2]
  }

  function ImmBytes(d: int, short: bool): Code
    requires if short then Fits8(d) else Fits32(d)
  {
    if short then [Unsigned8(d)] else LittleBytes(Unsigned32(d), 4)
  }

  /** The bytes after the ModRM part. */
  function Trailer(i: Instruction, s: Shape): Code
    requires Valid(i, s)
  {
    match i
    case Group1(_, _, imm, _) => ImmBytes(imm, s.short)
    case MovImm(_, imm, _) => ImmBytes(imm, false)
    case LoadImm(_, value, wide) => LittleBytes(value, if wide then 8 else 4)
    case Call(rel) => ImmBytes(rel, false)
    case Jmp(rel) => ImmBytes(rel, s.short)
    case Jcc(_, rel) => ImmBytes(rel, s.short)
    case Group3(op, _, imm, _) => if op == 0 then ImmBytes(imm, false) else []
    case _ => []
  }

  function RmBytes(i: Instruction, s: Shape): Code
    requires Valid(i, s)
  {
    if RmOf(i).Some? then EncodeRm(RmOf(i).value, FieldOf(i) % 8, s) else []
  }

  function Encode(i: Instruction, s: Shape): Code
    requires Valid(i, s)
  {
    Prefix(BitsOf(i), s.force) + (Opcode(i, s) + (RmBytes(i, s) + Trailer(i, s)))
  }

  /** An immediate of the size the shape says. */
  lemma ImmReads(code: Code, pos: nat, d: int, short: bool)
    requires pos <= |code| && (if short then Fits8(d) else Fits32(d)) && At(code, pos, ImmBytes(d, short))
    ensures (if short then I8(code, pos) else I32(code, pos)) == Got(d, pos + |ImmBytes(d, short)|)
  {
    if short { I8Reads(code, pos, d); } else { I32Reads(code, pos, d); }
  }

  /** An instruction encoded at a position of the code, behind its prefix. */
  datatype Placement = Placement(code: Code, pos: nat, insn: Instruction, shape: Shape, rex: Byte)
  {
    ghost predicate Stands() {
      && pos <= |code| && Valid(insn, shape)
      && At(code, pos, Opcode(insn, shape) + (RmBytes(insn, shape) + Trailer(insn, shape)))
      && rex == RexByte(BitsOf(insn), shape.force)
    }
  }

  type Placed = p: Placement | p.Stands()
    ghost witness Placement([0x90], 0, Nop, Shape(false, false, 0, 0, false), 0)

  function OperandPos(p: Placed): nat { p.pos + |Opcode(p.insn, p.shape)| }

  function TrailerPos(p: Placed): nat { OperandPos(p) + |RmBytes(p.insn, p.shape)| }

  function End(p: Placed): nat { TrailerPos(p) + |Trailer(p.insn, p.shape)| }

  lemma PartsStand(p: Placed)
    ensures End(p) <= |p.code| && At(p.code, p.pos, Opcode(p.insn, p.shape))
    ensures At(p.code, OperandPos(p), RmBytes(p.insn, p.shape)) && At(p.code, TrailerPos(p), Trailer(p.insn, p.shape))
  {
    ThreeParts(p.code, p.pos, Opcode(p.insn, p.shape), RmBytes(p.insn, p.shape), Trailer(p.insn, p.shape));
  }

  lemma ThreeParts(code: Code, pos: nat, a: Code, b: Code, c: Code)
    requires At(code, pos, a + (b + c))
    ensures pos + |a| + |b| + |c| <= |code| && At(code, pos, a)
    ensures At(code, pos + |a|, b) && At(code, pos + |a| + |b|, c)
  {
    AtSplit(code, pos, a, b + c);
    AtSplit(code, pos + |a|, b, c);
  }

  lemma OpcodeReads(p: Placed)
    ensures var op := Opcode(p.insn, p.shape);
            U8(p.code, p.pos) == Got(op[0], p.pos + 1) && (|op| > 1 ==> U8(p.code, p.pos + 1) == Got(op[1], p.pos + 2))
  {
    PartsStand(p);
    var op := Opcode(p.insn, p.shape);
    assert p.code[p.pos] == p.code[p.pos..p.pos + |op|][0];
    if |op| > 1 { assert p.code[p.pos + 1] == p.code[p.pos..p.pos + |op|][1]; }
  }

  lemma OperandStands(p: Placed)
    requires RmOf(p.insn).Some?
    ensures DecodeModRm(p.code, OperandPos(p), p.rex) == Got(ModRm(RmOf(p.insn).value, FieldOf(p.insn)), TrailerPos(p))
    ensures OperandPos(p) < |p.code| && p.code[OperandPos(p)] / 8 % 8 == FieldOf(p.insn) % 8
  {
    PartsStand(p);
    RexFields(BitsOf(p.insn), p.shape.force);
    assert InOpcode(p.insn) == 0;
    RmReads(p.code, OperandPos(p), RmOf(p.insn).value, FieldOf(p.insn), p.shape, p.rex);
    FirstByte(p.code, OperandPos(p), RmOf(p.insn).value, FieldOf(p.insn) % 8, p.shape);
  }

  lemma BitsStand(p: Placed)
    ensures Bit(p.rex, 0) == One(BitsOf(p.insn).b) && (Bit(p.rex, 3) == 1 <==> WideOf(p.insn))
  {
    RexFields(BitsOf(p.insn), p.shape.force);
  }

  /** A signed trailer: an immediate operand or the displacement of a branch. */
  lemma ImmStands(p: Placed, d: int, short: bool)
    requires if short then Fits8(d) else Fits32(d)
    requires Trailer(p.insn, p.shape) == ImmBytes(d, short)
    ensures TrailerPos(p) <= |p.code|
    ensures (if short then I8(p.code, TrailerPos(p)) else I32(p.code, TrailerPos(p))) == Got(d, End(p))
  {
    PartsStand(p);
    ImmReads(p.code, TrailerPos(p), d, short);
  }

  lemma AluByte(k: nat, low: nat)
    requires k < 8 && low < 8
    ensures (8 * k + low) % 8 == low && (8 * k + low) / 8 == k && 8 * k + low < 0x40
  {
  }

  /** `m` is what stands where the operand of a placed instruction would be. */
  ghost predicate Operand(p: Placed, m: Read<ModRm>) {
    && OperandPos(p) <= |p.code| && (m.Got? ==> OperandPos(p) < m.pos <= |p.code|)
    && (RmOf(p.insn).Some? ==>
          && m == Got(ModRm(RmOf(p.insn).value, FieldOf(p.insn)), TrailerPos(p))
          && Digit(p.code, OperandPos(p)) == FieldOf(p.insn) % 8)
  }

  /** Two-byte opcodes are those that begin with 0F. */
  lemma OpcodeSize(i: Instruction, s: Shape)
    requires Valid(i, s)
    ensures if Opcode(i, s)[0] == 0x0F then |Opcode(i, s)| == 2 else |Opcode(i, s)| == 1
  {
    if i.ToRm? && i.store.AluTo? { AluByte(i.store.op, 1); }
    if i.FromRm? && i.load.AluFrom? { AluByte(i.load.op, 3); }
  }

  /** Decoding a placed instruction is decoding its opcode with the operand that was encoded. */
  lemma OpcodeStands(p: Placed) returns (m: Read<ModRm>)
    ensures Operand(p, m)
    ensures DecodeOpcode(p.code, p.pos, p.rex) ==
            var op := Opcode(p.insn, p.shape);
            if |op| == 1 then OneByte(p.code, OperandPos(p), op[0], m, p.rex)
            else TwoByte(p.code, OperandPos(p), op[1], m, Bit(p.rex, 3) == 1)
  {
    OpcodeReads(p);
    PartsStand(p);
    var op := Opcode(p.insn, p.shape);
    OpcodeSize(p.insn, p.shape);
    m := DecodeModRm(p.code, OperandPos(p), p.rex);
    if RmOf(p.insn).Some? { OperandStands(p); }
  }

  lemma ToRmDecodes(p: Placed, m: Read<ModRm>)
    requires p.insn.ToRm? && Operand(p, m)
    ensures OneByte(p.code, OperandPos(p), Opcode(p.insn, p.shape)[0], m, p.rex) == Got(Some(p.insn), End(p))
  {
    BitsStand(p);
    if p.insn.store.AluTo? { AluByte(p.insn.store.op, 1); }
  }

  lemma FromRmDecodes(p: Placed, m: Read<ModRm>)
    requires p.insn.FromRm? && |Opcode(p.insn, p.shape)| == 1 && Operand(p, m)
    ensures OneByte(p.code, OperandPos(p), Opcode(p.insn, p.shape)[0], m, p.rex) == Got(Some(p.insn), End(p))
  {
    BitsStand(p);
    if p.insn.load.AluFrom? { AluByte(p.insn.load.op, 3); }
  }

  lemma Group1Decodes(p: Placed, m: Read<ModRm>)
    requires p.insn.Group1? && Operand(p, m)
    ensures OneByte(p.code, OperandPos(p), Opcode(p.insn, p.shape)[0], m, p.rex) == Got(Some(p.insn), End(p))
  {
    BitsStand(p);
    ImmStands(p, p.insn.imm, p.shape.short);
  }

  lemma Group3Decodes(p: Placed, m: Read<ModRm>)
    requires p.insn.Group3? && Operand(p, m)
    ensures OneByte(p.code, OperandPos(p), Opcode(p.insn, p.shape)[0], m, p.rex) == Got(Some(p.insn), End(p))
  {
    BitsStand(p);
    if p.insn.op == 0 { ImmStands(p, p.insn.imm, false); }
  }

  lemma Group5Decodes(p: Placed, m: Read<ModRm>)
    requires p.insn.Group5? && Operand(p, m)
    ensures OneByte(p.code, OperandPos(p), Opcode(p.insn, p.shape)[0], m, p.rex) == Got(Some(p.insn), End(p))
  {
    BitsStand(p);
  }

  lemma MovImmDecodes(p: Placed, m: Read<ModRm>)
    requires p.insn.MovImm? && Operand(p, m)
    ensures OneByte(p.code, OperandPos(p), Opcode(p.insn, p.shape)[0], m, p.rex) == Got(Some(p.insn), End(p))
  {
    BitsStand(p);
    ImmStands(p, p.insn.imm, false);
  }

  /** A register in the opcode is its low bits there and REX.B. */
  lemma InOpcodeStands(p: Placed)
    requires RmOf(p.insn).None?
    ensures Extend(InOpcode(p.insn) % 8, Bit(p.rex, 0)) == InOpcode(p.insn)
  {
    BitsStand(p);
    Halves(InOpcode(p.insn));
  }

  lemma LoadImmDecodes(p: Placed, m: Read<ModRm>)
    requires p.insn.LoadImm? && Operand(p, m)
    ensures OneByte(p.code, OperandPos(p), Opcode(p.insn, p.shape)[0], m, p.rex) == Got(Some(p.insn), End(p))
  {
    BitsStand(p);
    InOpcodeStands(p);
    PartsStand(p);
    LittleReads(p.code, OperandPos(p), p.insn.value, if p.insn.wide then 8 else 4);
    var op := Opcode(p.insn, p.shape)[0];
    assert OneByte(p.code, OperandPos(p), op, m, p.rex) ==
           DecodeLoadImm(p.code, OperandPos(p), Extend(op - 0xB8, Bit(p.rex, 0)), p.insn.wide);
  }

  lemma PushDecodes(p: Placed, m: Read<ModRm>)
    requires p.insn.Push? && Operand(p, m)
    ensures OneByte(p.code, OperandPos(p), Opcode(p.insn, p.shape)[0], m, p.rex) == Got(Some(p.insn), End(p))
  {
    InOpcodeStands(p);
    assert Opcode(p.insn, p.shape)[0] - 0x50 == p.insn.reg % 8;
  }

  lemma PopDecodes(p: Placed, m: Read<ModRm>)
    requires p.insn.Pop? && Operand(p, m)
    ensures OneByte(p.code, OperandPos(p), Opcode(p.insn, p.shape)[0], m, p.rex) == Got(Some(p.insn), End(p))
  {
    InOpcodeStands(p);
    assert Opcode(p.insn, p.shape)[0] - 0x58 == p.insn.reg % 8;
  }

  lemma BranchDecodes(p: Placed, m: Read<ModRm>)
    requires (p.insn.Call? || p.insn.Jmp? || p.insn.Jcc?) && |Opcode(p.insn, p.shape)| == 1 && Operand(p, m)
    ensures OneByte(p.code, OperandPos(p), Opcode(p.insn, p.shape)[0], m, p.rex) == Got(Some(p.insn), End(p))
  {
    ImmStands(p, p.insn.rel, p.shape.short && !p.insn.Call?);
    var op := Opcode(p.insn, p.shape)[0];
    assert OneByte(p.code, OperandPos(p), op, m, p.rex) == DecodeBranch(p.code, OperandPos(p), op);
  }

  lemma BareDecodes(p: Placed, m: Read<ModRm>)
    requires (p.insn.Ret? || p.insn.Leave? || p.insn.Nop? || p.insn.Int3?) && Operand(p, m)
    ensures OneByte(p.code, OperandPos(p), Opcode(p.insn, p.shape)[0], m, p.rex) == Got(Some(p.insn), End(p))
  {
  }

  lemma LongJumpDecodes(p: Placed, m: Read<ModRm>)
    requires p.insn.Jcc? && !p.shape.short && Operand(p, m)
    ensures TwoByte(p.code, OperandPos(p), Opcode(p.insn, p.shape)[1], m, Bit(p.rex, 3) == 1) ==
            Got(Some(p.insn), End(p))
  {
    ImmStands(p, p.insn.rel, false);
  }

  lemma TwoByteDecodes(p: Placed, m: Read<ModRm>)
    requires |Opcode(p.insn, p.shape)| == 2 && !p.insn.Jcc? && Operand(p, m)
    ensures TwoByte(p.code, OperandPos(p), Opcode(p.insn, p.shape)[1], m, Bit(p.rex, 3) == 1) ==
            Got(Some(p.insn), End(p))
  {
    BitsStand(p);
  }

  lemma BodyDecodes(p: Placed)
    ensures DecodeOpcode(p.code, p.pos, p.rex) == Got(Some(p.insn), End(p))
  {
    var i := p.insn;
    var m := OpcodeStands(p);
    if i.Jcc? && !p.shape.short { LongJumpDecodes(p, m); }
    else if |Opcode(i, p.shape)| == 2 { TwoByteDecodes(p, m); }
    else if i.ToRm? { ToRmDecodes(p, m); }
    else if i.FromRm? { FromRmDecodes(p, m); }
    else if i.Group1? { Group1Decodes(p, m); }
    else if i.Group3? { Group3Decodes(p, m); }
    else if i.Group5? { Group5Decodes(p, m); }
    else if i.MovImm? { MovImmDecodes(p, m); }
    else if i.LoadImm? { LoadImmDecodes(p, m); }
    else if i.Push? { PushDecodes(p, m); }
    else if i.Pop? { PopDecodes(p, m); }
    else if i.Call? || i.Jmp? || i.Jcc? { BranchDecodes(p, m); }
    else { BareDecodes(p, m); }
  }

  lemma Regroup(a: Code, b: Code, c: Code)
    requires b != []
    ensures a + (b + c) == (a + [b[0]]) + (b[1..] + c)
  {
  }

  /** Decoding inverts encoding: any supported instruction with any registers, addressing form
      and displacement, encoded with at most one REX prefix, is found again at any position
      that is not taken as an embedded string, with its length. */
  lemma DecodingInvertsEncoding(code: Code, pos: nat, i: Instruction, s: Shape)
    requires Valid(i, s) && pos <= |code| && At(code, pos, Encode(i, s)) && EmbeddedStringLength(code, pos) == 0
    ensures pos < |code| && ItemAt(code, pos) == Insn(i, |Encode(i, s)|)
  {
    var p := Behind(code, pos, i, s);
    BodyDecodes(p);
    PartsStand(p);
  }

  /** The instruction stands behind its prefix, which the decoder skips and remembers. */
  lemma Behind(code: Code, pos: nat, i: Instruction, s: Shape) returns (p: Placed)
    requires Valid(i, s) && pos <= |code| && At(code, pos, Encode(i, s))
    ensures p.code == code && p.pos == AfterRex(code, pos) == pos + |Prefix(BitsOf(i), s.force)|
    ensures p.insn == i && p.shape == s && p.rex == Rex(code, pos)
  {
    var prefix, op, rest := Prefix(BitsOf(i), s.force), Opcode(i, s), RmBytes(i, s) + Trailer(i, s);
    AtSplit(code, pos, prefix, op + rest);
    Regroup(prefix, op, rest);
    AtSplit(code, pos, prefix + [op[0]], op[1..] + rest);
    PrefixReads(code, pos, BitsOf(i), s.force, op[0]);
    p := Placement(code, pos + |prefix|, i, s, RexByte(BitsOf(i), s.force));
  }
}
