/** The text of decoded instructions, as src/c/disasm.c writes it into buffers of fixed size. */
module Listing {
  import opened X86
  import opened Encoder

  const OPERANDS_SIZE: nat := 96
  const RM_TEXT_SIZE: nat := 48

  // ---------------------------------------------------------------- numbers and registers

  function HexChar(d: nat): char
    requires d < 16
  {
    if d < 10 then '0' + d as char else 'a' + (d - 10) as char
  }

  function HexDigits(v: nat): (s: string)
    ensures s != ""
  {
    if v < 16 then [HexChar(v)] else HexDigits(v / 16) + [HexChar(v % 16)]
  }

  function Hex(v: nat): string { "0x" + HexDigits(v) }

  function SignedHex(d: int): string { if d < 0 then "-" + Hex(-d) else Hex(d) }

  function Displaced(d: int): string { if d == 0 then "" else if d < 0 then "-" + Hex(-d) else "+" + Hex(d) }

  /** The name of a register, 64 bits wide or 32. */
  type Names = (nat, bool) -> string

  const REG64: seq<string> := ["rax", "rcx", "rdx", "rbx", "rsp", "rbp", "rsi", "rdi",
                               "r8", "r9", "r10", "r11", "r12", "r13", "r14", "r15"]
  const REG32: seq<string> := ["eax", "ecx", "edx", "ebx", "esp", "ebp", "esi", "edi",
                               "r8d", "r9d", "r10d", "r11d", "r12d", "r13d", "r14d", "r15d"]

  const NAMES: Names := (reg, wide) => if wide then REG64[reg % 16] else REG32[reg % 16]

  ghost predicate Short(names: Names) { forall reg, wide :: |names(reg, wide)| <= 4 }

  lemma NamesAreShort()
    ensures Short(NAMES)
  {
    assert forall r :: 0 <= r < 16 ==> |REG64[r]| <= 4 && |REG32[r]| <= 4;
  }

  // ---------------------------------------------------------------- mnemonics

  datatype Word =
    | Arithmetic(k: nat) | Unary(k: nat) | Indirect(k: nat) | JumpOn(cc: nat) | SetOn(cc: nat)
    | WMov | WMovabs | WTest | WLea | WImul | WMovzx | WMovsx | WPush | WPop | WCall | WJmp | WNop
    | WRet | WLeave | WInt3 | WCpuid | WAsciz | WBad

  const GROUP1: seq<string> := ["add", "or", "adc", "sbb", "and", "sub", "xor", "cmp"]
  const CONDITIONS: seq<string> := ["o", "no", "b", "ae", "e", "ne", "be", "a", "s", "ns", "p", "np", "l", "ge", "le",
      "g"]
  const GROUP3: seq<string> := ["test", "idiv", "not", "neg", "mul", "imul", "div", "idiv"]
  const GROUP5: seq<string> := ["inc", "dec", "call", "", "jmp", "", "push", ""]

  function Spelling(w: Word): string {
    match w
    case Arithmetic(k) => GROUP1[k % 8]
    case Unary(k) => GROUP3[k % 8]
    case Indirect(k) => GROUP5[k % 8]
    case JumpOn(cc) => "j" + CONDITIONS[cc % 16]
    case SetOn(cc) => "set" + CONDITIONS[cc % 16]
    case WMov => "mov"
    case WMovabs => "movabs"
    case WTest => "test"
    case WLea => "lea"
    case WImul => "imul"
    case WMovzx => "movzx"
    case WMovsx => "movsx"
    case WPush => "push"
    case WPop => "pop"
    case WCall => "call"
    case WJmp => "jmp"
    case WNop => "nop"
    case WRet => "ret"
    case WLeave => "leave"
    case WInt3 => "int3"
    case WCpuid => "cpuid"
    case WAsciz => ".asciz"
    case WBad => "(bad)"
  }

  const MNEMONIC_SIZE: nat := 16

  /** No mnemonic is ever truncated. */
  lemma MnemonicsFit(w: Word)
    ensures |Spelling(w)| < MNEMONIC_SIZE
  {
    assert forall k :: 0 <= k < 8 ==> |GROUP1[k]| <= 4 && |GROUP3[k]| <= 4 && |GROUP5[k]| <= 4;
    assert forall cc :: 0 <= cc < 16 ==> |CONDITIONS[cc]| <= 2;
  }

  function Mnemonic(i: Instruction): Word {
    match i
    case ToRm(op, _, _, _) => (match op case AluTo(k) => Arithmetic(k) case Test => WTest case MovTo => WMov)
    case FromRm(op, _, _, _) =>
      (match op
       case AluFrom(k) => Arithmetic(k)
       case MovFrom => WMov
       case Lea => WLea
       case Imul => WImul
       case Movzx(_) => WMovzx
       case Movsx(_) => WMovsx)
    case Group1(op, _, _, _) => Arithmetic(op)
    case MovImm(_, _, _) => WMov
    case LoadImm(_, _, wide) => if wide then WMovabs else WMov
    case Push(_) => WPush
    case Pop(_) => WPop
    case Call(_) => WCall
    case Jmp(_) => WJmp
    case Jcc(cc, _) => JumpOn(cc)
    case Group3(op, _, _, _) => Unary(op)
    case Group5(op, _, _) => Indirect(op)
    case SetCc(cc, _) => SetOn(cc)
    case LongNop(_, _) => WNop
    case Ret => WRet
    case Leave => WLeave
    case Nop => WNop
    case Int3 => WInt3
    case Cpuid => WCpuid
  }

  // ---------------------------------------------------------------- operands

  function Scale(shift: nat): nat { if shift == 0 then 1 else if shift == 1 then 2 else if shift == 2 then 4 else 8 }

  function IndexText(names: Names, index: Index): string { names(index.reg, true) + "*" + Hex(Scale(index.shift)) }

  /** An address: its parts joined by plus signs; without a register, all 64 bits of it. */
  function AddressText(names: Names, base: Option<nat>, index: Option<Index>, d: int): string {
    match (base, index)
    case (Some(b), Some(i)) => names(b, true) + "+" + IndexText(names, i) + Displaced(d)
    case (Some(b), None) => names(b, true) + Displaced(d)
    case (None, Some(i)) => IndexText(names, i) + Displaced(d)
    case (None, None) => Hex(d % 0x1_0000_0000_0000_0000)
  }

  function RmText(names: Names, rm: Rm, wide: bool): string {
    match rm
    case Direct(r) => names(r, wide)
    case RipRelative(d) => "[" + ("rip" + Displaced(d)) + "]"
    case Memory(base, index, d) => "[" + AddressText(names, base, index, d) + "]"
  }

  /** What a buffer of `size` characters keeps of a text. */
  function Clip(s: string, size: nat): string
    requires size > 0
  {
    if |s| < size then s else s[..size - 1]
  }

  function RmShown(names: Names, rm: Rm, wide: bool): string { Clip(RmText(names, rm, wide), RM_TEXT_SIZE) }

  predicate Outside(codeLength: nat, next: nat, rel: int) { !(0 <= next + rel <= codeLength) }

  /** The target of a branch as an offset in the code, or as a distance when it is outside. */
  function TargetText(codeLength: nat, next: nat, rel: int): string {
    if Outside(codeLength, next, rel) then "." + Displaced(rel) + " ; outside" else Hex(next + rel)
  }

  /** The operands of an instruction that ends before `next`. */
  function Operands(names: Names, i: Instruction, codeLength: nat, next: nat): string {
    match i
    case ToRm(_, rm, reg, wide) => RmShown(names, rm, wide) + ", " + names(reg, wide)
    case FromRm(_, reg, rm, wide) => names(reg, wide) + ", " + RmShown(names, rm, wide)
    case Group1(_, rm, imm, wide) => RmShown(names, rm, wide) + ", " + SignedHex(imm)
    case MovImm(rm, imm, wide) => RmShown(names, rm, wide) + ", " + SignedHex(imm)
    case LoadImm(reg, value, wide) => names(reg, wide) + ", " + Hex(value)
    case Push(reg) => names(reg, true)
    case Pop(reg) => names(reg, true)
    case Call(rel) => TargetText(codeLength, next, rel)
    case Jmp(rel) => TargetText(codeLength, next, rel)
    case Jcc(_, rel) => TargetText(codeLength, next, rel)
    case Group3(op, rm, imm, wide) => if op == 0 then RmShown(names, rm, wide) + ", " + SignedHex(imm)
        else RmShown(names, rm, wide)
    case Group5(_, rm, wide) => RmShown(names, rm, wide)
    case SetCc(_, rm) => RmShown(names, rm, false)
    case LongNop(rm, wide) => RmShown(names, rm, wide)
    case _ => ""
  }

  /** The address an instruction refers to: a value of its own, or an offset from the code. */
  datatype Address = Absolute(value: nat) | FromCode(offset: int)

  function RipTarget(rm: Rm, next: nat): Option<Address> {
    if rm.RipRelative? then Some(FromCode(next + rm.disp)) else None
  }

  /** The immediate of movabs, a branch out of the code, or a RIP-relative operand. */
  function Target(i: Instruction, codeLength: nat, next: nat): Option<Address> {
    if i.LoadImm? then Some(Absolute(i.value))
    else if i.Call? || i.Jmp? || i.Jcc? then if Outside(codeLength, next, i.rel) then Some(FromCode(next + i.rel))
        else None
    else if RmOf(i).Some? then RipTarget(RmOf(i).value, next)
    else None
  }

  /** One item of a listing. */
  datatype Line = Line(item: Item, mnemonic: Word, operands: string, target: Option<Address>)

  /** The characters of an embedded string, quotes and backslashes escaped. */
  function StringText(code: Code, from: nat, to: nat): string
    requires from <= to <= |code|
    decreases |code| - from
  {
    if from == to then ""
    else
      var c := code[from] as char;
      (if c == '"' || c == '\\' then ['\\', c] else [c]) + StringText(code, from + 1, to)
  }

  function LineAt(names: Names, code: Code, offset: nat): Line
    requires offset < |code|
  {
    var item := ItemAt(code, offset);
    match item
    case Data(n) => Line(item, WAsciz, Clip("\"" + StringText(code, offset, offset + n - 1) + "\"", OPERANDS_SIZE),
        None)
    case Bad => Line(item, WBad, Hex(code[offset]), None)
    case Insn(i, n) => InsnLine(names, i, |code|, offset, n)
  }

  function InsnLine(names: Names, i: Instruction, codeLength: nat, offset: nat, n: nat): Line {
    Line(Insn(i, n), Mnemonic(i), Clip(Operands(names, i, codeLength, offset + n), OPERANDS_SIZE),
        Target(i, codeLength, offset + n))
  }

  // ---------------------------------------------------------------- nothing is cut off

  lemma {:induction false} HexLength(v: nat, n: nat)
    requires n >= 1 && v < Pow16(n)
    ensures |HexDigits(v)| <= n
    decreases n
  {
    if v >= 16 { HexLength(v / 16, n - 1); }
  }

  function Pow16(n: nat): nat { if n == 0 then 1 else 16 * Pow16(n - 1) }

  lemma Hex32(v: nat)
    requires v <= 0x8000_0000
    ensures |Hex(v)| <= 10
  {
    assert Pow16(8) == 0x1_0000_0000;
    HexLength(v, 8);
  }

  lemma Hex64(v: nat)
    requires v < 0x1_0000_0000_0000_0000
    ensures |Hex(v)| <= 18
  {
    assert Pow16(8) == 0x1_0000_0000;
    assert Pow16(16) == 0x1_0000_0000_0000_0000 by { assert Pow16(12) == 0x1_0000_0000_0000; }
    HexLength(v, 16);
  }

  lemma ShortDisplaced(d: int)
    requires Fits32(d)
    ensures |Displaced(d)| <= 11 && |SignedHex(d)| <= 11
  {
    Hex32(if d < 0 then -d else d);
  }

  lemma ShortIndex(names: Names, i: Index)
    requires Short(names)
    ensures |IndexText(names, i)| <= 8
  {
    assert Scale(i.shift) < 16;
  }

  /** The text of any operand fits its buffer. */
  lemma RmFits(names: Names, rm: Rm, wide: bool, s: Shape)
    requires Encodable(rm, s) && Short(names)
    ensures |RmText(names, rm, wide)| <= 26 && RmShown(names, rm, wide) == RmText(names, rm, wide)
  {
    match rm
    case Direct(r) =>
    case RipRelative(d) => ShortDisplaced(d);
    case Memory(base, index, d) =>
      EncodedFits(rm, s);
      ShortDisplaced(d);
      Hex64(d % 0x1_0000_0000_0000_0000);
      if index.Some? { ShortIndex(names, index.value); }
  }

  lemma EncodedFits(rm: Rm, s: Shape)
    requires rm.Memory? && Encodable(rm, s)
    ensures Fits32(rm.disp)
  {
  }

  /** No operand text of a supported instruction is ever truncated. */
  lemma OperandsFit(names: Names, i: Instruction, s: Shape, codeLength: nat, next: nat)
    requires Short(names) && Valid(i, s) && codeLength < 0x1_0000_0000_0000_0000
    ensures |Operands(names, i, codeLength, next)| < OPERANDS_SIZE
    ensures RmOf(i).Some? ==> forall wide :: RmShown(names, RmOf(i).value, wide) == RmText(names, RmOf(i).value, wide)
  {
    if RmOf(i).Some? {
      forall wide ensures |RmText(names, RmOf(i).value, wide)| <= 26
          && RmShown(names, RmOf(i).value, wide) == RmText(names, RmOf(i).value, wide) {
        RmFits(names, RmOf(i).value, wide, s);
      }
    }
    if i.Group1? || i.MovImm? || (i.Group3? && i.op == 0) {
      ShortDisplaced(i.imm);
    } else if i.LoadImm? {
      assert Pow256(8) == 0x1_0000_0000_0000_0000 && Pow256(4) < Pow256(8);
      Hex64(i.value);
    } else if i.Call? || i.Jmp? || i.Jcc? {
      ShortDisplaced(i.rel);
      if !Outside(codeLength, next, i.rel) { Hex64(next + i.rel); }
    }
  }

  // ---------------------------------------------------------------- whole listings

  /** The line of an encoded instruction: the same instruction, its length, its whole operand
      text and the address it refers to. */
  lemma EncodedLine(names: Names, code: Code, pos: nat, i: Instruction, s: Shape)
    requires Short(names) && Valid(i, s) && pos <= |code| < 0x8000_0000_0000_0000
    requires At(code, pos, Encode(i, s)) && EmbeddedStringLength(code, pos) == 0
    ensures var n := |Encode(i, s)|;
            && pos < |code|
            && LineAt(names, code, pos) ==
               Line(Insn(i, n), Mnemonic(i), Operands(names, i, |code|, pos + n), Target(i, |code|, pos + n))
  {
    DecodingInvertsEncoding(code, pos, i, s);
    OperandsFit(names, i, s, |code|, pos + |Encode(i, s)|);
  }

  /** With the processor's own register names, and the mnemonic as it is spelt. */
  lemma EncodedText(code: Code, pos: nat, i: Instruction, s: Shape)
    requires Valid(i, s) && pos <= |code| < 0x8000_0000_0000_0000
    requires At(code, pos, Encode(i, s)) && EmbeddedStringLength(code, pos) == 0
    ensures var line := LineAt(NAMES, code, pos);
            && line.item == Insn(i, |Encode(i, s)|) && |Spelling(line.mnemonic)| < MNEMONIC_SIZE
            && line.operands == Operands(NAMES, i, |code|, pos + |Encode(i, s)|) && |line.operands| < OPERANDS_SIZE
  {
    NamesAreShort();
    EncodedLine(NAMES, code, pos, i, s);
    OperandsFit(NAMES, i, s, |code|, pos + |Encode(i, s)|);
    MnemonicsFit(Mnemonic(i));
  }

  /** A printable text of `n` bytes and a NUL, behind a jump over them, is found as data
      exactly when it is not too long. */
  lemma EmbeddedFoundIff(code: Code, pos: nat, n: nat)
    requires pos + 5 + n < |code| && code[pos] == 0xE9 && I32(code, pos + 1) == Got(n + 1, pos + 5)
    requires code[pos + 5 + n] == 0 && forall k :: pos + 5 <= k < pos + 5 + n ==> Printable(code[k])
    ensures EmbeddedStringLength(code, pos + 5) == n + 1 <==> n + 1 <= OS_DISASM_MAX_DATA_BYTES
  {
    var offset := pos + 5;
    assert I32(code, offset - 4) == I32(code, pos + 1);
    if n + 1 <= OS_DISASM_MAX_DATA_BYTES {
      assert code[offset + (n + 1) - 1] == 0;
      assert forall k :: offset <= k < offset + (n + 1) - 1 ==> Printable(code[k]);
    }
  }

  /** The text of an embedded string is whole exactly when it fits the operand buffer. */
  lemma DataWholeIff(code: Code, offset: nat, len: nat)
    requires len > 0 && offset + len <= |code|
    ensures var text := "\"" + StringText(code, offset, offset + len - 1) + "\"";
            Clip(text, OPERANDS_SIZE) == text <==> |StringText(code, offset, offset + len - 1)| <= OPERANDS_SIZE - 3
  {
  }

  /** The length of the item at every offset. */
  function ItemLengths(code: Code): (lengths: seq<nat>)
    ensures |lengths| == |code| && Proper(lengths)
  {
    seq(|code|, offset requires 0 <= offset < |code| => ItemLength(ItemAt(code, offset)))
  }

  predicate Proper(lengths: seq<nat>) { forall i :: 0 <= i < |lengths| ==> 1 <= lengths[i] <= |lengths| - i }

  /** The lengths of the items that a linear sweep from `offset` goes through. */
  function Sweep(lengths: seq<nat>, offset: nat): seq<nat>
    requires Proper(lengths) && offset <= |lengths|
    decreases |lengths| - offset
  {
    if offset == |lengths| then [] else [lengths[offset]] + Sweep(lengths, offset + lengths[offset])
  }

  function Sum(lengths: seq<nat>): nat { if lengths == [] then 0 else lengths[0] + Sum(lengths[1..]) }

  lemma {:induction false} SweepSums(lengths: seq<nat>, offset: nat)
    requires Proper(lengths) && offset <= |lengths|
    ensures Sum(Sweep(lengths, offset)) == |lengths| - offset
    decreases |lengths| - offset
  {
    if offset < |lengths| {
      var next := offset + lengths[offset];
      SweepSums(lengths, next);
      assert ([lengths[offset]] + Sweep(lengths, next))[1..] == Sweep(lengths, next);
    }
  }

  /** Whatever the bytes are, a sweep goes through all of them, each in one item. */
  lemma SweepCovers(code: Code)
    ensures Sum(Sweep(ItemLengths(code), 0)) == |code|
  {
    SweepSums(ItemLengths(code), 0);
  }
}
