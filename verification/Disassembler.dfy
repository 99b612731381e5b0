/** src/c/disasm.c as it works: a decoding cursor that remembers running off the code, and
    text built in buffers of fixed size. */
module Disassembler {
  import opened X86
  import Encoder
  import opened Listing

  // ---------------------------------------------------------------- the string builder

  /** d_sb_t: what does not fit is dropped. `full` is what would be there in a larger buffer. */
  class TextBuilder {
    const buffer: array<char>
    var len: nat
    ghost var full: string

    constructor (size: nat)
      requires size > 0
      ensures Valid() && fresh(buffer) && buffer.Length == size && full == ""
    {
      buffer := new char[size];
      len, full := 0, "";
    }

    ghost predicate Valid()
      reads this, buffer
    {
      buffer.Length > 0 && len < buffer.Length && buffer[..len] == Clip(full, buffer.Length)
    }

    /** sb_char */
    method Char(c: char)
      requires Valid()
      modifies this, buffer
      ensures Valid() && full == old(full) + [c]
    {
      ghost var before := full;
      full := full + [c];
      if len + 1 >= buffer.Length { return; }
      buffer[len] := c;
      len := len + 1;
      assert buffer[..len] == before + [c];
    }

    /** A character of an embedded string: quotes and backslashes get a backslash before them. */
    method Escaped(c: char)
      requires Valid()
      modifies this, buffer
      ensures Valid() && full == old(full) + if c == '"' || c == '\\' then ['\\', c] else [c]
    {
      Join(full, "\\", [c]);
      if c == '"' || c == '\\' { Char('\\'); }
      Char(c);
    }

    /** sb_str */
    method Str(s: string)
      requires Valid()
      modifies this, buffer
      ensures Valid() && full == old(full) + s
    {
      for k := 0 to |s|
        invariant Valid() && full == old(full) + s[..k]
      {
        Char(s[k]);
        assert s[..k + 1] == s[..k] + [s[k]];
      }
      assert s[..|s|] == s;
    }

    /** The digit loop of sb_hex: at most 16 digits, least significant first. */
    method TakeHexDigits(value: nat, digits: array<char>) returns (n: nat)
      requires 0 < value < 0x1_0000_0000_0000_0000 && digits.Length == 16
      modifies digits
      ensures n <= 16 && Flipped(digits[..n]) == HexDigits(value)
    {
      n := 0;
      var v: nat := value;
      Hex64(value);
      assert Flipped(digits[..0]) == "";
      while v != 0
        invariant n <= 16 && Left(v) + Flipped(digits[..n]) == HexDigits(value)
        decreases v
      {
        NextDigit(v, digits[..n]);
        ghost var taken := digits[..n];
        digits[n] := HexChar(v % 16);
        assert digits[..n + 1] == taken + [HexChar(v % 16)];
        n := n + 1;
        v := v / 16;
      }
      assert "" + Flipped(digits[..n]) == Flipped(digits[..n]);
    }

    /** The second loop of sb_hex. */
    method WriteFlipped(digits: array<char>, count: nat)
      requires Valid() && count <= digits.Length && digits != buffer
      modifies this, buffer
      ensures Valid() && full == old(full) + Flipped(digits[..count])
    {
      var n := count;
      while n > 0
        invariant 0 <= n <= count && Valid() && full + Flipped(digits[..n]) == old(full) + Flipped(digits[..count])
      {
        n := n - 1;
        FlippedSnoc(digits[..n], digits[n]);
        assert digits[..n + 1] == digits[..n] + [digits[n]];
        Char(digits[n]);
      }
      assert digits[..0] == [];
    }

    /** sb_hex */
    method HexNumber(value: nat)
      requires Valid() && value < 0x1_0000_0000_0000_0000
      modifies this, buffer
      ensures Valid() && full == old(full) + Hex(value)
    {
      Str("0x");
      if value == 0 {
        Char('0');
        return;
      }
      var digits := new char[16];
      var n := TakeHexDigits(value, digits);
      WriteFlipped(digits, n);
      Join(old(full), "0x", HexDigits(value));
    }

    /** sb_shex */
    method SignedNumber(d: int)
      requires Valid() && Encoder.Fits32(d)
      modifies this, buffer
      ensures Valid() && full == old(full) + SignedHex(d)
    {
      if d < 0 {
        Char('-');
        HexNumber(-d);
        Join(old(full), "-", Hex(-d));
      } else {
        HexNumber(d);
      }
    }

    /** sb_disp */
    method Disp(d: int)
      requires Valid() && Encoder.Fits32(d)
      modifies this, buffer
      ensures Valid() && full == old(full) + Displaced(d)
    {
      if d == 0 { return; }
      Char(if d < 0 then '-' else '+');
      HexNumber(if d < 0 then -d else d);
      Join(old(full), if d < 0 then "-" else "+", Hex(if d < 0 then -d else d));
    }

    method Text() returns (s: string)
      requires Valid()
      ensures s == Clip(full, buffer.Length)
    {
      s := buffer[..len];
    }
  }

  lemma Join(a: string, b: string, c: string)
    ensures a + b + c == a + (b + c)
  {
  }

  function Left(v: nat): string { if v == 0 then "" else HexDigits(v) }

  function Flipped(s: string): (r: string)
    ensures |r| == |s|
  {
    if s == "" then "" else [s[|s| - 1]] + Flipped(s[..|s| - 1])
  }

  lemma FlippedSnoc(s: string, c: char)
    ensures Flipped(s + [c]) == [c] + Flipped(s)
  {
    assert (s + [c])[..|s|] == s;
  }

  lemma NextDigit(v: nat, taken: string)
    requires v > 0
    ensures Left(v) + Flipped(taken) == Left(v / 16) + Flipped(taken + [HexChar(v % 16)])
    ensures |Left(v)| > 0
  {
    FlippedSnoc(taken, HexChar(v % 16));
    Join(Left(v / 16), [HexChar(v % 16)], Flipped(taken));
  }

  // ---------------------------------------------------------------- the cursor

  /** d_cursor_t */
  class Cursor {
    const code: Code
    var pos: nat
    var truncated: bool
    var ripRelative: bool
    var ripDisp: int

    constructor (code: Code, pos: nat)
      requires pos <= |code|
      ensures Valid() && this.code == code && this.pos == pos && !truncated && !ripRelative
    {
      this.code, this.pos, truncated, ripRelative, ripDisp := code, pos, false, false, 0;
    }

    ghost predicate Valid()
      reads this
    {
      pos <= |code|
    }

    /** What reading one thing has done: either it was there or the code was too short; once
        too short, for ever. */
    twostate predicate Reads<T>(r: Read<T>, v: T)
      reads this
    {
      && Valid() && (old(truncated) ==> truncated)
      && (!old(truncated) ==> (truncated <==> r.Cut?) && (!truncated ==> v == r.value && pos == r.pos))
    }

    /** d_u8 */
    method U8() returns (b: Byte)
      requires Valid()
      modifies this`pos, this`truncated
      ensures Reads(X86.U8(code, old(pos)), b)
    {
      if pos >= |code| {
        truncated := true;
        return 0;
      }
      b := code[pos];
      pos := pos + 1;
    }

    /** d_u32 and d_u64 */
    method Little(n: nat) returns (v: nat)
      requires Valid()
      modifies this`pos, this`truncated
      ensures Reads(X86.Little(code, old(pos), n), v) && v < Encoder.Pow256(n)
    {
      v := 0;
      ghost var start := pos;
      for k := 0 to n
        invariant Valid() && (old(truncated) ==> truncated) && v < Encoder.Pow256(k)
        invariant !truncated ==> pos == start + k && v == Number(code[start..pos])
        invariant truncated ==> old(truncated) || start + n > |code|
      {
        ghost var before := pos;
        var b := U8();
        if !truncated {
          NumberSnoc(code[start..before], b);
          assert code[start..pos] == code[start..before] + [b];
          assert |code[start..before]| == k;
        }
        ByteBelow(v, Encoder.Pow256(k), b);
        v := v + Encoder.Pow256(k) * b;
      }
    }

    method I8() returns (d: int)
      requires Valid()
      modifies this`pos, this`truncated
      ensures Reads(X86.I8(code, old(pos)), d) && Encoder.Fits8(d)
    {
      var b := U8();
      d := Signed8(b);
    }

    method I32() returns (d: int)
      requires Valid()
      modifies this`pos, this`truncated
      ensures Reads(X86.I32(code, old(pos)), d) && Encoder.Fits32(d)
    {
      var v := Little(4);
      assert Encoder.Pow256(4) == TWO32;
      d := Signed32(v);
    }
  }

  lemma ByteBelow(v: nat, p: nat, b: Byte)
    requires v < p
    ensures v + p * b < 256 * p
  {
    assert p * b <= p * 255;
  }

  lemma {:induction false} NumberSnoc(bytes: Code, b: Byte)
    ensures Number(bytes + [b]) == Number(bytes) + Encoder.Pow256(|bytes|) * b
  {
    if bytes != [] {
      NumberSnoc(bytes[1..], b);
      assert (bytes + [b])[1..] == bytes[1..] + [b];
    } else {
      assert (bytes + [b])[1..] == [];
    }
  }

  // ---------------------------------------------------------------- operands

  /** The end of d_decode_modrm: the parts of an address. */
  method WriteAddress(names: Names, sb: TextBuilder, base: Option<nat>, index: Option<Index>, d: int)
    requires sb.Valid() && Encoder.Fits32(d)
    modifies sb, sb.buffer
    ensures sb.Valid() && sb.full == old(sb.full) + AddressText(names, base, index, d)
  {
    var wrote := false;
    if base.Some? {
      sb.Str(names(base.value, true));
      wrote := true;
    }
    if index.Some? {
      if wrote { sb.Char('+'); }
      sb.Str(names(index.value.reg, true));
      sb.Char('*');
      sb.HexNumber(Scale(index.value.shift));
      wrote := true;
    }
    if wrote { sb.Disp(d); } else { sb.HexNumber(d % 0x1_0000_0000_0000_0000); }
    AddressJoins(names, old(sb.full), base, index, d);
  }

  /** The parts written one after the other are the address. */
  lemma AddressJoins(names: Names, before: string, base: Option<nat>, index: Option<Index>, d: int)
    ensures match (base, index)
            case (Some(b), Some(i)) =>
              before + names(b, true) + "+" + names(i.reg, true) + "*" + Hex(Scale(i.shift)) + Displaced(d)
              == before + AddressText(names, base, index, d)
            case (Some(b), None) => before + names(b, true) + Displaced(d) ==
                before + AddressText(names, base, index, d)
            case (None, Some(i)) =>
              before + names(i.reg, true) + "*" + Hex(Scale(i.shift)) + Displaced(d) ==
                  before + AddressText(names, base, index, d)
            case (None, None) => true
  {
    if base.Some? && index.Some? {
      var b, i, h := names(base.value, true), names(index.value.reg, true), Hex(Scale(index.value.shift));
      Product(before + b + "+", i, h);
      Join(before, b, "+");
      Join(before, b + "+", IndexText(names, index.value));
      Join(before, b + "+" + IndexText(names, index.value), Displaced(d));
    } else if base.Some? {
      Join(before, names(base.value, true), Displaced(d));
    } else if index.Some? {
      Product(before, names(index.value.reg, true), Hex(Scale(index.value.shift)));
      Join(before, IndexText(names, index.value), Displaced(d));
    }
  }

  lemma Product(before: string, i: string, h: string)
    ensures before + i + "*" + h == before + (i + "*" + h)
  {
    Join(before, i, "*");
    Join(before, i + "*", h);
  }

  /** What the cursor has noted about a RIP-relative operand. */
  ghost predicate Noted(c: Cursor, rm: Rm)
    reads c
  {
    (c.ripRelative <==> rm.RipRelative?) && (rm.RipRelative? ==> c.ripDisp == rm.disp)
  }

  /** d_decode_modrm */
  method DecodeModRm(names: Names, c: Cursor, rex: Byte, wide: bool) returns (text: string, reg: nat)
    requires c.Valid() && !c.ripRelative && !c.truncated
    modifies c
    ensures c.Valid()
    ensures var m := X86.DecodeModRm(c.code, old(c.pos), rex);
            && (c.truncated <==> m.Cut?)
            && (m.Got? ==>
                  && c.pos == m.pos && reg == m.value.reg && text == RmShown(names, m.value.rm, wide)
                  && Noted(c, m.value.rm))
  {
    var sb := new TextBuilder(RM_TEXT_SIZE);
    var modrm := c.U8();
    var mod, rm := modrm / 64, modrm % 8;
    reg := Extend(modrm / 8 % 8, Bit(rex, 2));
    if mod == 3 {
      sb.Str(names(Extend(rm, Bit(rex, 0)), wide));
      text := sb.Text();
      return;
    }
    var base, index, d := DecodeAddressPart(c, rex, mod, rm, reg);
    text := MemoryText(names, sb, base, index, d, c.ripRelative, wide);
  }

  /** The end of d_decode_modrm: the text of a memory operand. */
  method MemoryText(names: Names, sb: TextBuilder, base: Option<nat>, index: Option<Index>, d: int, rip: bool,
          ghost wide: bool)
    returns (text: string)
    requires sb.Valid() && sb.full == "" && sb.buffer.Length == RM_TEXT_SIZE && Encoder.Fits32(d)
    modifies sb, sb.buffer
    ensures text == RmShown(names, if rip then RipRelative(d) else Memory(base, index, d), wide)
  {
    ghost var inner := if rip then "rip" + Displaced(d) else AddressText(names, base, index, d);
    sb.Char('[');
    assert sb.full == "[";
    if rip {
      sb.Str("rip");
      sb.Disp(d);
      Join("[", "rip", Displaced(d));
    } else {
      WriteAddress(names, sb, base, index, d);
    }
    assert sb.full == "[" + inner;
    sb.Char(']');
    assert sb.full == "[" + inner + "]";
    text := sb.Text();
  }

  /** The part of d_decode_modrm that reads the SIB byte and the displacement. */
  method DecodeAddressPart(c: Cursor, rex: Byte, mod: nat, rm: nat, ghost reg: nat)
    returns (base: Option<nat>, index: Option<Index>, d: int)
    requires c.Valid() && !c.ripRelative && mod < 3 && rm < 8
    modifies c
    ensures c.Valid() && Encoder.Fits32(d) && (old(c.truncated) ==> c.truncated)
    ensures var m := DecodeRm(c.code, old(c.pos), rex, mod, rm, reg);
            !old(c.truncated) ==>
            && (c.truncated <==> m.Cut?)
            && (m.Got? ==>
                  && c.pos == m.pos && m.value.reg == reg && Noted(c, m.value.rm)
                  && m.value.rm == if c.ripRelative then RipRelative(d) else Memory(base, index, d))
  {
    base, index, d := None, None, 0;
    if rm == 4 {
      var sib := c.U8();
      var i := Extend(sib / 8 % 8, Bit(rex, 1));
      if i != 4 { index := Some(Index(i, sib / 64)); }
      if sib % 8 == 5 && mod == 0 {
        d := c.I32();
      } else {
        base := Some(Extend(sib % 8, Bit(rex, 0)));
      }
    } else if rm == 5 && mod == 0 {
      d := c.I32();
      c.ripRelative, c.ripDisp := true, d;
    } else {
      base := Some(Extend(rm, Bit(rex, 0)));
    }
    if mod == 1 {
      d := c.I8();
    } else if mod == 2 {
      d := c.I32();
    }
  }

  // ---------------------------------------------------------------- instructions

  /** What decoding an instruction must have done: `r` is what there is to decode. */
  ghost predicate Done(names: Names, c: Cursor, ops: TextBuilder, mnemonic: Word, ok: bool,
          r: Read<Option<Instruction>>)
    reads c, ops, ops.buffer
  {
    && c.Valid() && ops.Valid()
    && (ok && !c.truncated <==> r.Got? && r.value.Some?)
    && (ok && !c.truncated ==>
          var i := r.value.value;
          && c.pos == r.pos && mnemonic == Mnemonic(i) && ops.full == Operands(names, i, |c.code|, c.pos)
          && (if Encoder.RmOf(i).Some? then Noted(c, Encoder.RmOf(i).value) else !c.ripRelative))
  }

  /** The cursor is behind the opcode and no text is written yet. */
  ghost predicate Ready(c: Cursor, ops: TextBuilder)
    reads c, ops, ops.buffer
  {
    c.Valid() && ops.Valid() && !c.truncated && !c.ripRelative && ops.full == ""
  }

  /** The operand `m` has been read and its text made. */
  ghost predicate OperandRead(names: Names, c: Cursor, ops: TextBuilder, m: Read<ModRm>, text: string, wide: bool)
    reads c, ops, ops.buffer
  {
    && c.Valid() && ops.Valid() && ops.full == ""
    && (c.truncated <==> m.Cut?)
    && (m.Got? ==> c.pos == m.pos && text == RmShown(names, m.value.rm, wide) && Noted(c, m.value.rm))
  }

  method ToRmForm(names: Names, c: Cursor, ops: TextBuilder, ghost m: Read<ModRm>, text: string, reg: nat,
          store: ToRmOp, wide: bool)
    returns (mnemonic: Word)
    requires OperandRead(names, c, ops, m, text, wide) && (m.Got? ==> reg == m.value.reg)
    modifies ops, ops.buffer
    ensures Done(names, c, ops, mnemonic, true, ModRmReg(m, store, wide))
  {
    mnemonic := Mnemonic(ToRm(store, Direct(0), 0, wide));
    ops.Str(text);
    ops.Str(", ");
    ops.Str(names(reg, wide));
    assert "" + text == text;
  }

  method FromRmForm(names: Names, c: Cursor, ops: TextBuilder, ghost m: Read<ModRm>, text: string, reg: nat,
          load: FromRmOp, wide: bool)
    returns (mnemonic: Word)
    requires OperandRead(names, c, ops, m, text, wide) && (m.Got? ==> reg == m.value.reg)
    modifies ops, ops.buffer
    ensures Done(names, c, ops, mnemonic, true, RegModRm(m, load, wide))
  {
    mnemonic := Mnemonic(FromRm(load, 0, Direct(0), wide));
    ops.Str(names(reg, wide));
    ops.Str(", ");
    ops.Str(text);
    assert "" + names(reg, wide) == names(reg, wide);
  }

  /** The ModRM byte is looked at before it is decoded; past the end it counts as 0. */
  method PeekDigit(c: Cursor) returns (digit: nat)
    requires c.Valid()
    ensures digit < 8 && (c.pos < |c.code| ==> digit == Digit(c.code, c.pos))
  {
    digit := if c.pos < |c.code| then c.code[c.pos] / 8 % 8 else 0;
  }

  /** An operand and a signed immediate. */
  method OperandAndImmediate(names: Names, c: Cursor, ops: TextBuilder, ghost m: Read<ModRm>, text: string,
          short: bool, ghost wide: bool)
    returns (imm: int)
    requires OperandRead(names, c, ops, m, text, wide)
    modifies c`pos, c`truncated, ops, ops.buffer
    ensures c.Valid() && ops.Valid() && ops.full == text + ", " + SignedHex(imm)
    ensures m.Cut? ==> c.truncated
    ensures m.Got? && m.pos <= |c.code| ==>
              var i := if short then X86.I8(c.code, m.pos) else X86.I32(c.code, m.pos);
              (c.truncated <==> i.Cut?) && (i.Got? ==> i == Got(imm, c.pos))
  {
    ops.Str(text);
    ops.Str(", ");
    assert "" + text == text;
    if short { imm := c.I8(); } else { imm := c.I32(); }
    ops.SignedNumber(imm);
  }

  method Group1Form(names: Names, c: Cursor, ops: TextBuilder, ghost m: Read<ModRm>, text: string, digit: nat,
          short: bool, wide: bool, ghost at: nat)
    returns (mnemonic: Word)
    requires OperandRead(names, c, ops, m, text, wide) && digit < 8
    requires m.Got? ==> at < m.pos <= |c.code| && digit == Digit(c.code, at)
    modifies c`pos, c`truncated, ops, ops.buffer
    ensures Done(names, c, ops, mnemonic, true, DecodeGroup1(c.code, at, m, short, wide))
  {
    mnemonic := Arithmetic(digit);
    var imm := OperandAndImmediate(names, c, ops, m, text, short, wide);
  }

  method Group3Form(names: Names, c: Cursor, ops: TextBuilder, ghost m: Read<ModRm>, text: string, digit: nat,
          wide: bool, ghost at: nat)
    returns (mnemonic: Word)
    requires OperandRead(names, c, ops, m, text, wide) && digit < 8
    requires m.Got? ==> at < m.pos <= |c.code| && digit == Digit(c.code, at)
    modifies c`pos, c`truncated, ops, ops.buffer
    ensures Done(names, c, ops, mnemonic, true, DecodeGroup3(c.code, at, m, wide))
  {
    mnemonic := Unary(digit);
    if digit == 0 {
      var imm := OperandAndImmediate(names, c, ops, m, text, false, wide);
    } else {
      ops.Str(text);
      assert "" + text == text;
    }
  }

  method Group5Form(names: Names, c: Cursor, ops: TextBuilder, ghost m: Read<ModRm>, text: string, digit: nat,
          ghost wide: bool, ghost at: nat)
    returns (ok: bool, mnemonic: Word)
    requires OperandRead(names, c, ops, m, text, digit >= 2 || wide) && digit < 8
    requires m.Got? ==> at < m.pos <= |c.code| && digit == Digit(c.code, at)
    modifies ops, ops.buffer
    ensures Done(names, c, ops, mnemonic, ok, DecodeGroup5(c.code, at, m, wide))
  {
    ok := digit != 3 && digit != 5 && digit != 7;
    mnemonic := Indirect(digit);
    ops.Str(text);
    assert "" + text == text;
  }

  method MovImmForm(names: Names, c: Cursor, ops: TextBuilder, ghost m: Read<ModRm>, text: string, wide: bool)
    returns (mnemonic: Word)
    requires OperandRead(names, c, ops, m, text, wide) && (m.Got? ==> m.pos <= |c.code|)
    modifies c`pos, c`truncated, ops, ops.buffer
    ensures Done(names, c, ops, mnemonic, true, DecodeMovImm(c.code, m, wide))
  {
    mnemonic := WMov;
    var imm := OperandAndImmediate(names, c, ops, m, text, false, wide);
  }

  method LoadImmForm(names: Names, c: Cursor, ops: TextBuilder, rex: Byte, low: nat)
    returns (mnemonic: Word, value: nat)
    requires Ready(c, ops) && low < 8
    modifies c, ops, ops.buffer
    ensures Done(names, c, ops, mnemonic, true,
                 DecodeLoadImm(c.code, old(c.pos), Extend(low, Bit(rex, 0)), Bit(rex, 3) == 1))
    ensures !c.truncated ==>
              Some(Absolute(value)) ==
              OwnTarget(DecodeLoadImm(c.code, old(c.pos), Extend(low, Bit(rex, 0)), Bit(rex, 3) == 1), |c.code|)
  {
    var wide := Bit(rex, 3) == 1;
    var dst := Extend(low, Bit(rex, 0));
    value := c.Little(if wide then 8 else 4);
    assert Encoder.Pow256(4) < Encoder.Pow256(8) == 0x1_0000_0000_0000_0000;
    mnemonic := if wide then WMovabs else WMov;
    ops.Str(names(dst, wide));
    ops.Str(", ");
    ops.HexNumber(value);
    assert "" + names(dst, wide) == names(dst, wide);
  }

  /** d_branch_target, with the displacement already read. */
  method BranchText(c: Cursor, ops: TextBuilder, rel: int)
    requires c.Valid() && ops.Valid() && Encoder.Fits32(rel) && ops.full == "" && |c.code| < 0x8000_0000_0000_0000
    modifies ops, ops.buffer
    ensures ops.Valid() && ops.full == TargetText(|c.code|, c.pos, rel)
  {
    if Outside(|c.code|, c.pos, rel) {
      ops.Str(".");
      ops.Disp(rel);
      ops.Str(" ; outside");
      assert "" + "." == ".";
    } else {
      ops.HexNumber(c.pos + rel);
      assert "" + Hex(c.pos + rel) == Hex(c.pos + rel);
    }
  }

  method BranchForm(names: Names, c: Cursor, ops: TextBuilder, op: Byte)
    returns (mnemonic: Word, target: Option<Address>)
    requires Ready(c, ops) && |c.code| < 0x8000_0000_0000_0000
    requires op == 0xE8 || op == 0xE9 || op == 0xEB || 0x70 <= op <= 0x7F
    modifies c, ops, ops.buffer
    ensures Done(names, c, ops, mnemonic, true, DecodeBranch(c.code, old(c.pos), op))
    ensures !c.truncated ==> target == OwnTarget(DecodeBranch(c.code, old(c.pos), op), |c.code|)
  {
    var rel;
    if op == 0xE8 || op == 0xE9 { rel := c.I32(); } else { rel := c.I8(); }
    mnemonic := if op == 0xE8 then WCall else if op == 0xE9 || op == 0xEB then WJmp else JumpOn(op - 0x70);
    BranchText(c, ops, rel);
    target := if Outside(|c.code|, c.pos, rel) then Some(FromCode(c.pos + rel)) else None;
    assert !c.truncated ==> DecodeBranch(c.code, old(c.pos), op) == Got(Some(BranchOf(op, rel)), c.pos);
    BranchIs(names, op, rel, |c.code|, c.pos);
  }

  function BranchOf(op: Byte, rel: int): Instruction
    requires op == 0xE8 || op == 0xE9 || op == 0xEB || 0x70 <= op <= 0x7F
  {
    if op == 0xE8 then Call(rel) else if op == 0xE9 || op == 0xEB then Jmp(rel) else Jcc(op - 0x70, rel)
  }

  lemma BranchIs(names: Names, op: Byte, rel: int, codeLength: nat, next: nat)
    requires op == 0xE8 || op == 0xE9 || op == 0xEB || 0x70 <= op <= 0x7F
    ensures var i := BranchOf(op, rel);
            && Operands(names, i, codeLength, next) == TargetText(codeLength, next, rel) && Encoder.RmOf(i).None?
            && Mnemonic(i) ==
               (if op == 0xE8 then WCall else if op == 0xE9 || op == 0xEB then WJmp else JumpOn(op - 0x70))
            && Target(i, codeLength, next) ==
               (if Outside(codeLength, next, rel) then Some(FromCode(next + rel)) else None)
  {
  }

  /** The opcodes of one byte: the switch of os_disasm_item. */
  method OneByteForm(names: Names, c: Cursor, ops: TextBuilder, op: Byte, rex: Byte)
    returns (ok: bool, mnemonic: Word, target: Option<Address>)
    requires Ready(c, ops) && |c.code| < 0x8000_0000_0000_0000 && op != 0x0F
    modifies c, ops, ops.buffer
    ensures Done(names, c, ops, mnemonic, ok,
                 OneByte(c.code, old(c.pos), op, X86.DecodeModRm(c.code, old(c.pos), rex), rex))
    ensures ok && !c.truncated ==>
              target ==
              OwnTarget(OneByte(c.code, old(c.pos), op, X86.DecodeModRm(c.code, old(c.pos), rex), rex), |c.code|)
  {
    var wide := Bit(rex, 3) == 1;
    ghost var at, m := c.pos, X86.DecodeModRm(c.code, c.pos, rex);
    if HasOperand(op) {
      var digit := PeekDigit(c);
      var text, reg := DecodeModRm(names, c, rex, (op == 0xFF && digit >= 2) || wide);
      ok, mnemonic := OperandForm(names, c, ops, m, text, reg, digit, op, rex, at);
      target := None;
      OperandHasNoOwnTarget(c.code, at, op, m, rex);
    } else {
      ok, mnemonic, target := PlainForm(names, c, ops, op, rex, m);
    }
  }

  lemma OperandHasNoOwnTarget(code: Code, at: nat, op: Byte, m: Read<ModRm>, rex: Byte)
    requires HasOperand(op) && at <= |code| && (m.Got? ==> at < m.pos <= |code|)
    ensures OwnTarget(OneByte(code, at, op, m, rex), |code|) == None
  {
  }

  /** The opcodes of one byte without a ModRM byte. */
  method PlainForm(names: Names, c: Cursor, ops: TextBuilder, op: Byte, rex: Byte, ghost m: Read<ModRm>)
    returns (ok: bool, mnemonic: Word, target: Option<Address>)
    requires Ready(c, ops) && |c.code| < 0x8000_0000_0000_0000 && !HasOperand(op)
    requires m.Got? ==> c.pos < m.pos <= |c.code|
    modifies c, ops, ops.buffer
    ensures Done(names, c, ops, mnemonic, ok, OneByte(c.code, old(c.pos), op, m, rex))
    ensures ok && !c.truncated ==> target == OwnTarget(OneByte(c.code, old(c.pos), op, m, rex), |c.code|)
  {
    ok, mnemonic, target := true, WBad, None;
    ghost var at := c.pos;
    PlainOpcode(c.code, at, op, m, rex);
    if 0x50 <= op <= 0x5F {
      mnemonic := StackForm(names, c, ops, Extend(op % 8, Bit(rex, 0)), op <= 0x57);
    } else if 0xB8 <= op <= 0xBF {
      var value;
      mnemonic, value := LoadImmForm(names, c, ops, rex, op - 0xB8);
      target := Some(Absolute(value));
    } else if op == 0xE8 || op == 0xE9 || op == 0xEB || 0x70 <= op <= 0x7F {
      mnemonic, target := BranchForm(names, c, ops, op);
    } else {
      ok := op == 0xC3 || op == 0xC9 || op == 0x90 || op == 0xCC;
      mnemonic := if op == 0xC3 then WRet else if op == 0xC9 then WLeave else if op == 0x90 then WNop else WInt3;
    }
  }

  /** push and pop */
  method StackForm(names: Names, c: Cursor, ops: TextBuilder, reg: nat, push: bool) returns (mnemonic: Word)
    requires Ready(c, ops)
    modifies ops, ops.buffer
    ensures Done(names, c, ops, mnemonic, true, Got(Some(if push then Push(reg) else Pop(reg)), c.pos))
    ensures OwnTarget(Got(Some(if push then Push(reg) else Pop(reg)), c.pos), |c.code|) == None
  {
    var name := names(reg, true);
    mnemonic := if push then WPush else WPop;
    ops.Str(name);
    assert "" + name == name;
  }

  /** What the opcodes without an operand decode to. */
  lemma PlainOpcode(code: Code, at: nat, op: Byte, m: Read<ModRm>, rex: Byte)
    requires !HasOperand(op) && at <= |code| && (m.Got? ==> at < m.pos <= |code|)
    ensures var r := OneByte(code, at, op, m, rex);
            if 0x50 <= op <= 0x5F then
              var reg := Extend(op % 8, Bit(rex, 0));
              r == Got(Some(if op <= 0x57 then Push(reg) else Pop(reg)), at)
            else if 0xB8 <= op <= 0xBF then
              r == DecodeLoadImm(code, at, Extend(op - 0xB8, Bit(rex, 0)), Bit(rex, 3) == 1)
            else if op == 0xE8 || op == 0xE9 || op == 0xEB || 0x70 <= op <= 0x7F then r == DecodeBranch(code, at, op)
            else
              r == Got(if op == 0xC3 then Some(Ret)
                       else if op == 0xC9 then Some(Leave)
                       else if op == 0x90 then Some(Nop)
                       else if op == 0xCC then Some(Int3)
                       else None, at)
  {
  }

  /** The target that an instruction has apart from a RIP-relative operand. */
  function OwnTarget(r: Read<Option<Instruction>>, codeLength: nat): Option<Address> {
    if r.Cut? || r.value.None? || Encoder.RmOf(r.value.value).Some? then None
        else Target(r.value.value, codeLength, r.pos)
  }

  predicate HasOperand(op: Byte) {
    (op < 0x40 && (op % 8 == 1 || op % 8 == 3)) || op == 0x85 || op == 0x89 || op == 0x8B || op == 0x8D
    || op == 0x83 || op == 0x81 || op == 0xC7 || op == 0xFF || op == 0xF7
  }

  /** The opcodes with a ModRM byte, after it is decoded. */
  method OperandForm(names: Names, c: Cursor, ops: TextBuilder, ghost m: Read<ModRm>, text: string, reg: nat,
          digit: nat, op: Byte, rex: Byte, ghost at: nat)
    returns (ok: bool, mnemonic: Word)
    requires HasOperand(op) && digit < 8
    requires OperandRead(names, c, ops, m, text, (op == 0xFF && digit >= 2) || Bit(rex, 3) == 1)
    requires at <= |c.code|
    requires m.Got? ==> at < m.pos <= |c.code| && reg == m.value.reg && digit == Digit(c.code, at)
    modifies c`pos, c`truncated, ops, ops.buffer
    ensures Done(names, c, ops, mnemonic, ok, OneByte(c.code, at, op, m, rex))
  {
    var wide := Bit(rex, 3) == 1;
    ok := true;
    if op == 0x83 || op == 0x81 {
      mnemonic := Group1Form(names, c, ops, m, text, digit, op == 0x83, wide, at);
    } else if op == 0xC7 {
      mnemonic := MovImmForm(names, c, ops, m, text, wide);
    } else if op == 0xFF {
      ok, mnemonic := Group5Form(names, c, ops, m, text, digit, wide, at);
    } else if op == 0xF7 {
      mnemonic := Group3Form(names, c, ops, m, text, digit, wide, at);
    } else if op == 0x85 || op == 0x89 || (op < 0x40 && op % 8 == 1) {
      var store := if op == 0x85 then Test else if op == 0x89 then MovTo else AluTo(op / 8);
      mnemonic := ToRmForm(names, c, ops, m, text, reg, store, wide);
    } else {
      var load := if op == 0x8B then MovFrom else if op == 0x8D then Lea else AluFrom(op / 8);
      mnemonic := FromRmForm(names, c, ops, m, text, reg, load, wide);
    }
  }

  // ---------------------------------------------------------------- two-byte opcodes and items

  /** The opcodes after 0F. */
  method TwoByteForm(names: Names, c: Cursor, ops: TextBuilder, op: Byte, rex: Byte)
    returns (ok: bool, mnemonic: Word, target: Option<Address>)
    requires Ready(c, ops) && |c.code| < 0x8000_0000_0000_0000
    modifies c, ops, ops.buffer
    ensures Done(names, c, ops, mnemonic, ok,
                 TwoByte(c.code, old(c.pos), op, X86.DecodeModRm(c.code, old(c.pos), rex), Bit(rex, 3) == 1))
    ensures ok && !c.truncated ==>
              target == OwnTarget(TwoByte(c.code, old(c.pos), op, X86.DecodeModRm(c.code, old(c.pos), rex),
                  Bit(rex, 3) == 1), |c.code|)
  {
    ghost var at, m := c.pos, X86.DecodeModRm(c.code, c.pos, rex);
    var wide := Bit(rex, 3) == 1;
    target := None;
    if 0x90 <= op <= 0x9F || op == 0x1F || op == 0xAF || op == 0xB6 || op == 0xB7 || op == 0xBE || op == 0xBF {
      ok := true;
      var text, reg := DecodeModRm(names, c, rex, wide && !(0x90 <= op <= 0x9F));
      mnemonic := TwoByteOperandForm(names, c, ops, m, text, reg, op, wide, at);
    } else {
      ok, mnemonic, target := TwoByteOther(names, c, ops, op, wide, m);
    }
  }

  method TwoByteOperandForm(names: Names, c: Cursor, ops: TextBuilder, ghost m: Read<ModRm>, text: string, reg: nat,
                            op: Byte, wide: bool, ghost at: nat)
    returns (mnemonic: Word)
    requires 0x90 <= op <= 0x9F || op == 0x1F || op == 0xAF || op == 0xB6 || op == 0xB7 || op == 0xBE || op == 0xBF
    requires OperandRead(names, c, ops, m, text, wide && !(0x90 <= op <= 0x9F)) && at <= |c.code|
    requires m.Got? ==> at < m.pos <= |c.code| && reg == m.value.reg
    modifies ops, ops.buffer
    ensures Done(names, c, ops, mnemonic, true, TwoByte(c.code, at, op, m, wide))
    ensures !c.truncated ==> OwnTarget(TwoByte(c.code, at, op, m, wide), |c.code|) == None
  {
    if 0x90 <= op <= 0x9F || op == 0x1F {
      mnemonic := OnlyOperandForm(names, c, ops, m, text, op, wide, at);
    } else {
      var load := if op == 0xAF then Imul
                  else if op == 0xB6 || op == 0xB7 then Movzx(op == 0xB7)
                  else Movsx(op == 0xBF);
      assert TwoByte(c.code, at, op, m, wide) == RegModRm(m, load, wide);
      mnemonic := FromRmForm(names, c, ops, m, text, reg, load, wide);
    }
  }

  /** setcc and the long nop */
  method OnlyOperandForm(names: Names, c: Cursor, ops: TextBuilder, ghost m: Read<ModRm>, text: string, op: Byte,
          ghost wide: bool, ghost at: nat)
    returns (mnemonic: Word)
    requires (0x90 <= op <= 0x9F || op == 0x1F) && at <= |c.code| && (m.Got? ==> at < m.pos <= |c.code|)
    requires OperandRead(names, c, ops, m, text, wide && op == 0x1F)
    modifies ops, ops.buffer
    ensures Done(names, c, ops, mnemonic, true, TwoByte(c.code, at, op, m, wide))
    ensures !c.truncated ==> OwnTarget(TwoByte(c.code, at, op, m, wide), |c.code|) == None
  {
    mnemonic := if op == 0x1F then WNop else SetOn(op - 0x90);
    ops.Str(text);
    assert "" + text == text;
    if m.Got? {
      ghost var i := if op == 0x1F then LongNop(m.value.rm, wide) else SetCc(op - 0x90, m.value.rm);
      assert TwoByte(c.code, at, op, m, wide) == Got(Some(i), m.pos);
    }
  }

  method TwoByteOther(names: Names, c: Cursor, ops: TextBuilder, op: Byte, ghost wide: bool, ghost m: Read<ModRm>)
    returns (ok: bool, mnemonic: Word, target: Option<Address>)
    requires !(0x90 <= op <= 0x9F || op == 0x1F || op == 0xAF || op == 0xB6 || op == 0xB7 || op == 0xBE || op == 0xBF)
    requires Ready(c, ops) && |c.code| < 0x8000_0000_0000_0000 && (m.Got? ==> c.pos < m.pos <= |c.code|)
    modifies c, ops, ops.buffer
    ensures Done(names, c, ops, mnemonic, ok, TwoByte(c.code, old(c.pos), op, m, wide))
    ensures ok && !c.truncated ==> target == OwnTarget(TwoByte(c.code, old(c.pos), op, m, wide), |c.code|)
  {
    ok, mnemonic, target := true, WCpuid, None;
    if 0x80 <= op <= 0x8F {
      mnemonic, target := LongJumpForm(names, c, ops, op, wide, m);
    } else {
      ok := op == 0xA2;
    }
  }

  /** jcc with a 32-bit displacement */
  method LongJumpForm(names: Names, c: Cursor, ops: TextBuilder, op: Byte, ghost wide: bool, ghost m: Read<ModRm>)
    returns (mnemonic: Word, target: Option<Address>)
    requires 0x80 <= op <= 0x8F && Ready(c, ops) && |c.code| < 0x8000_0000_0000_0000
             && (m.Got? ==> c.pos < m.pos <= |c.code|)
    modifies c, ops, ops.buffer
    ensures Done(names, c, ops, mnemonic, true, TwoByte(c.code, old(c.pos), op, m, wide))
    ensures !c.truncated ==> target == OwnTarget(TwoByte(c.code, old(c.pos), op, m, wide), |c.code|)
  {
    var rel := c.I32();
    mnemonic := JumpOn(op - 0x80);
    BranchText(c, ops, rel);
    target := if Outside(|c.code|, c.pos, rel) then Some(FromCode(c.pos + rel)) else None;
    if !c.truncated {
      assert TwoByte(c.code, old(c.pos), op, m, wide) == Got(Some(Jcc(op - 0x80, rel)), c.pos);
      BranchIs(names, op - 0x10, rel, |c.code|, c.pos);
    }
  }

  /** The REX loop: every prefix counts for nothing but the last. */
  method SkipRex(c: Cursor) returns (rex: Byte)
    requires c.Valid()
    modifies c`pos
    ensures c.Valid() && c.pos == AfterRex(c.code, old(c.pos)) && rex == Rex(c.code, old(c.pos))
  {
    rex := 0;
    while c.pos < |c.code| && IsRex(c.code[c.pos])
      invariant old(c.pos) <= c.pos <= |c.code| && AfterRex(c.code, c.pos) == AfterRex(c.code, old(c.pos))
      invariant rex == if c.pos > old(c.pos) then c.code[c.pos - 1] else 0
      decreases |c.code| - c.pos
    {
      rex := c.code[c.pos];
      c.pos := c.pos + 1;
    }
  }

  /** d_embedded_string_len */
  method EmbeddedString(code: Code, offset: nat) returns (len: nat)
    requires offset <= |code|
    ensures len == EmbeddedStringLength(code, offset)
  {
    if offset < 5 || code[offset - 5] != 0xE9 { return 0; }
    var c := new Cursor(code, offset - 4);
    var rel := c.I32();
    if rel < 1 || rel > OS_DISASM_MAX_DATA_BYTES || offset + rel > |code| { return 0; }
    if code[offset + rel - 1] != 0 { return 0; }
    for i := 0 to rel - 1
      invariant forall k :: offset <= k < offset + i ==> Printable(code[k])
    {
      if !Printable(code[offset + i]) { return 0; }
    }
    return rel;
  }

  /** The text of an embedded string. */
  method DataText(code: Code, offset: nat, len: nat) returns (text: string)
    requires len > 0 && offset + len <= |code|
    ensures text == Clip("\"" + StringText(code, offset, offset + len - 1) + "\"", OPERANDS_SIZE)
  {
    var sb := new TextBuilder(OPERANDS_SIZE);
    sb.Char('"');
    assert sb.full == "\"";
    ghost var whole := "\"" + StringText(code, offset, offset + len - 1);
    for i := 0 to len - 1
      invariant sb.Valid() && fresh(sb) && fresh(sb.buffer) && sb.buffer.Length == OPERANDS_SIZE
      invariant sb.full + StringText(code, offset + i, offset + len - 1) == whole
    {
      var ch := code[offset + i] as char;
      ghost var rest := StringText(code, offset + i + 1, offset + len - 1);
      Join(sb.full, if ch == '"' || ch == '\\' then ['\\', ch] else [ch], rest);
      sb.Escaped(ch);
    }
    sb.Char('"');
    text := sb.Text();
  }

  /** os_disasm_item: the length of the item and its text; an embedded string and a bad byte
      have mnemonics of their own. */
  method DisassembleItem(names: Names, code: Code, offset: nat)
    returns (length: nat, mnemonic: Word, operands: string, target: Option<Address>)
    requires offset < |code| < 0x8000_0000_0000_0000
    ensures var line := LineAt(names, code, offset);
            length == ItemLength(line.item) && mnemonic == line.mnemonic && operands == line.operands
                && target == line.target
  {
    length := EmbeddedString(code, offset);
    if length > 0 {
      operands := DataText(code, offset, length);
      return length, WAsciz, operands, None;
    }
    var c := new Cursor(code, offset);
    var ok;
    ok, mnemonic, operands, target := Instruct(names, c);
    if !ok {
      BadLine(names, code, offset);
      return 1, WBad, Hex(code[offset]), None;
    }
    length := c.pos - offset;
    InstructionLine(names, code, offset);
  }

  lemma BadLine(names: Names, code: Code, offset: nat)
    requires offset < |code| && EmbeddedStringLength(code, offset) == 0
    requires Decode(code, offset).Cut? || Decode(code, offset).value.None?
    ensures LineAt(names, code, offset) == Line(Bad, WBad, Hex(code[offset]), None)
  {
  }

  lemma InstructionLine(names: Names, code: Code, offset: nat)
    requires offset < |code| && EmbeddedStringLength(code, offset) == 0
    requires Decode(code, offset).Got? && Decode(code, offset).value.Some?
    ensures var r := Decode(code, offset);
            LineAt(names, code, offset) == InsnLine(names, r.value.value, |code|, offset, r.pos - offset)
  {
    ItemLine(names, code, offset, Decode(code, offset));
  }

  lemma ItemLine(names: Names, code: Code, offset: nat, d: Read<Option<Instruction>>)
    requires offset < |code| && d.Got? && d.value.Some? && offset < d.pos
    requires ItemAt(code, offset) == DecodedItem(d, offset)
    ensures LineAt(names, code, offset) == InsnLine(names, d.value.value, |code|, offset, d.pos - offset)
  {
  }

  /** The instruction part of os_disasm_item. */
  method Instruct(names: Names, c: Cursor) returns (ok: bool, mnemonic: Word, operands: string, target: Option<Address>)
    requires c.Valid() && !c.truncated && !c.ripRelative && |c.code| < 0x8000_0000_0000_0000
    modifies c
    ensures var r := Decode(c.code, old(c.pos));
            && (ok <==> r.Got? && r.value.Some?)
            && (ok ==>
                  var i := r.value.value;
                  && c.pos == r.pos && mnemonic == Mnemonic(i) && target == Target(i, |c.code|, c.pos)
                  && operands == Clip(Operands(names, i, |c.code|, c.pos), OPERANDS_SIZE))
  {
    var rex := SkipRex(c);
    var ops := new TextBuilder(OPERANDS_SIZE);
    ghost var at := c.pos;
    ok, mnemonic, target := OpcodeForm(names, c, ops, rex);
    operands := "";
    if !ok { return; }
    ghost var r := DecodeOpcode(c.code, at, rex);
    TargetFound(c, r.value.value, target, |c.code|);
    if target == None && c.ripRelative { target := Some(FromCode(c.pos + c.ripDisp)); }
    operands := ops.Text();
  }

  /** Either an instruction has a target of its own, or its operand is relative to it. */
  lemma TargetFound(c: Cursor, i: Instruction, own: Option<Address>, codeLength: nat)
    requires if Encoder.RmOf(i).Some? then own == None && Noted(c, Encoder.RmOf(i).value)
             else own == Target(i, codeLength, c.pos) && !c.ripRelative
    ensures Target(i, codeLength, c.pos) ==
            if own == None && c.ripRelative then Some(FromCode(c.pos + c.ripDisp)) else own
  {
  }

  /** From the opcode on. */
  method OpcodeForm(names: Names, c: Cursor, ops: TextBuilder, rex: Byte)
    returns (ok: bool, mnemonic: Word, target: Option<Address>)
    requires Ready(c, ops) && |c.code| < 0x8000_0000_0000_0000
    modifies c, ops, ops.buffer
    ensures var r := DecodeOpcode(c.code, old(c.pos), rex);
            && (ok ==> !c.truncated && target == OwnTarget(r, |c.code|)) && Done(names, c, ops, mnemonic, ok, r)
  {
    ok, mnemonic, target := false, WBad, None;
    var op := c.U8();
    if c.truncated { return; }
    if op == 0x0F {
      op := c.U8();
      if c.truncated { return; }
      ok, mnemonic, target := TwoByteForm(names, c, ops, op, rex);
    } else {
      ok, mnemonic, target := OneByteForm(names, c, ops, op, rex);
    }
    ok := ok && !c.truncated;
  }
}
