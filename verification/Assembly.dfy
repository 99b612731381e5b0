/** Reading a listing: what the text of an instruction, destination first, tells about it. */
module Assembly {
  import opened X86
  import opened Encoder
  import opened Listing

  // ---------------------------------------------------------------- numbers

  function HexDigit(c: char): int {
    if '0' <= c <= '9' then (c - '0') as int else if 'a' <= c <= 'f' then 10 + (c - 'a') as int else -1
  }

  predicate AllHex(s: string) { forall i :: 0 <= i < |s| ==> HexDigit(s[i]) >= 0 }

  function HexValue(s: string): nat
    requires AllHex(s)
  {
    if s == "" then 0 else 16 * HexValue(s[..|s| - 1]) + HexDigit(s[|s| - 1])
  }

  function UnsignedNumber(s: string): Option<int> {
    if |s| > 2 && s[0] == '0' && s[1] == 'x' && AllHex(s[2..]) then Some(HexValue(s[2..])) else None
  }

  function Negated(v: Option<int>): Option<int> { if v.None? then None else Some(-v.value) }

  function SignedNumber(s: string): Option<int> {
    if s != "" && s[0] == '-' then Negated(UnsignedNumber(s[1..])) else UnsignedNumber(s)
  }

  /** Nothing, or a number with its sign. */
  function SignedDistance(s: string): Option<int> {
    if s == "" then Some(0)
    else if s[0] == '+' then UnsignedNumber(s[1..])
    else if s[0] == '-' then Negated(UnsignedNumber(s[1..]))
    else None
  }

  lemma {:induction false} DigitsRead(v: nat)
    ensures AllHex(HexDigits(v)) && HexValue(HexDigits(v)) == v
  {
    if v < 16 {
      assert HexDigits(v)[..0] == "";
    } else {
      DigitsRead(v / 16);
      assert HexDigits(v)[..|HexDigits(v)| - 1] == HexDigits(v / 16);
    }
  }

  lemma HexReads(v: nat)
    ensures UnsignedNumber(Hex(v)) == Some(v) && IsWord(Hex(v)) && Hex(v)[0] == '0'
  {
    DigitsRead(v);
    assert Hex(v)[2..] == HexDigits(v);
    forall i | 0 <= i < |Hex(v)| ensures !Separates(Hex(v)[i]) {
      if i >= 2 { assert Hex(v)[i] == HexDigits(v)[i - 2]; }
    }
  }

  lemma SignedReads(d: int)
    ensures SignedNumber(SignedHex(d)) == Some(d) && NoComma(SignedHex(d))
    ensures SignedHex(d)[0] == '0' || SignedHex(d)[0] == '-'
  {
    HexReads(if d < 0 then -d else d);
    if d < 0 { Behind('-', Hex(-d)); }
  }

  lemma DisplacedReads(d: int)
    ensures SignedDistance(Displaced(d)) == Some(d) && NoComma(Displaced(d))
    ensures Displaced(d) != "" ==> |Displaced(d)| > 1 && Separates(Displaced(d)[0]) && Displaced(d)[1] == '0'
    ensures Displaced(d) != "" ==> Displaced(d)[0] != '*'
  {
    HexReads(if d < 0 then -d else d);
    if d < 0 { Behind('-', Hex(-d)); } else if d > 0 { Behind('+', Hex(d)); }
  }

  lemma Behind(c: char, s: string)
    ensures ([c] + s)[0] == c && ([c] + s)[1..] == s
  {
  }

  // ---------------------------------------------------------------- words

  /** What ends a word of an address. */
  predicate Separates(c: char) { c == '+' || c == '-' || c == '*' || c == ',' || c == ']' }

  predicate IsWord(s: string) { s != "" && forall i :: 0 <= i < |s| ==> !Separates(s[i]) }

  predicate NoComma(s: string) { forall i :: 0 <= i < |s| ==> s[i] != ',' }

  function WordLength(s: string): (n: nat)
    ensures n <= |s|
  {
    if s == "" || Separates(s[0]) then 0 else 1 + WordLength(s[1..])
  }

  lemma {:induction false} WordEnds(w: string, k: string)
    requires forall i :: 0 <= i < |w| ==> !Separates(w[i])
    requires k == "" || Separates(k[0])
    ensures WordLength(w + k) == |w|
  {
    if w == "" {
      assert w + k == k;
    } else {
      assert (w + k)[1..] == w[1..] + k;
      WordEnds(w[1..], k);
    }
  }

  // ---------------------------------------------------------------- registers

  /** The registers of the oldest processors, by the two letters they had there. */
  function OldRegister(a: char, b: char): int {
    if a == 'a' && b == 'x' then 0
    else if a == 'c' && b == 'x' then 1
    else if a == 'd' && b == 'x' then 2
    else if a == 'b' && b == 'x' then 3
    else if a == 's' && b == 'p' then 4
    else if a == 'b' && b == 'p' then 5
    else if a == 's' && b == 'i' then 6
    else if a == 'd' && b == 'i' then 7
    else -1
  }

  datatype Operand = Register(reg: nat, wide: bool) | Address(rm: Rm) | Number(value: int) | Away(rel: int)

  /** r or e in front of two letters, or r, a number from 8 to 15, and d for 32 bits. */
  function RegisterNamed(s: string): Option<Operand> {
    if |s| == 3 && (s[0] == 'r' || s[0] == 'e') && OldRegister(s[1], s[2]) >= 0 then
      Some(Register(OldRegister(s[1], s[2]), s[0] == 'r'))
    else if |s| < 2 || s[0] != 'r' then None
    else
      var wide := s[|s| - 1] != 'd';
      var digits := if wide then |s| - 1 else |s| - 2;
      if digits == 1 && s[1] == '8' then Some(Register(8, wide))
      else if digits == 1 && s[1] == '9' then Some(Register(9, wide))
      else if digits == 2 && s[1] == '1' && '0' <= s[2] <= '5' then Some(Register(10 + (s[2] - '0') as nat, wide))
      else None
  }

  ghost predicate ReadsBack(names: Names) {
    forall reg, wide :: reg < 16 ==> NameReads(names(reg, wide), reg, wide)
  }

  ghost predicate NameReads(name: string, reg: nat, wide: bool) {
    IsWord(name) && 'a' <= name[0] <= 'z' && RegisterNamed(name) == Some(Register(reg, wide))
  }

  lemma OldNames(reg: nat, wide: bool)
    requires reg < 8
    ensures NameReads(if wide then REG64[reg] else REG32[reg], reg, wide)
  {
    var name := if wide then REG64[reg] else REG32[reg];
    assert |name| == 3 && name[0] == (if wide then 'r' else 'e') && OldRegister(name[1], name[2]) == reg;
  }

  lemma WideNames(reg: nat)
    requires 8 <= reg < 16
    ensures NameReads(REG64[reg], reg, true)
  {
  }

  lemma NarrowNames(reg: nat)
    requires 8 <= reg < 16
    ensures NameReads(REG32[reg], reg, false)
  {
  }

  lemma NameRead(reg: nat, wide: bool, name: string)
    requires reg < 16 && name == if wide then REG64[reg] else REG32[reg]
    ensures NameReads(name, reg, wide)
  {
    if reg < 8 {
      OldNames(reg, wide);
    } else if wide {
      WideNames(reg);
    } else {
      NarrowNames(reg);
    }
  }

  lemma TableName(reg: nat, wide: bool)
    requires reg < 16
    ensures NAMES(reg, wide) == if wide then REG64[reg] else REG32[reg]
  {
    assert reg % 16 == reg;
  }

  lemma NamesRead()
    ensures ReadsBack(NAMES)
  {
    forall reg: nat, wide | reg < 16 ensures NameReads(NAMES(reg, wide), reg, wide) {
      TableName(reg, wide);
      NameRead(reg, wide, NAMES(reg, wide));
    }
  }

  // ---------------------------------------------------------------- addresses

  function Shift(scale: int): nat { if scale == 1 then 0 else if scale == 2 then 1 else if scale == 4 then 2 else 3 }

  function Signed64(v: int): int { if v < 0x8000_0000_0000_0000 then v else v - 0x1_0000_0000_0000_0000 }

  /** An index register with its scale, and what is added to it. */
  function ScaledAddress(base: Option<nat>, name: string, k: string): Option<Rm>
    requires k != ""
  {
    var n := WordLength(k[1..]);
    var reg, scale, d := RegisterNamed(name), UnsignedNumber(k[1..][..n]), SignedDistance(k[1..][n..]);
    if k[0] != '*' || reg.None? || scale.None? || d.None? then None
    else Some(Memory(base, Some(Index(reg.value.reg, Shift(scale.value))), d.value))
  }

  /** base, base+index*scale or index*scale, and then a displacement; rip and a displacement; or a
      number alone. */
  function AddressOf(s: string): Option<Rm> {
    var n := WordLength(s);
    var name, k := s[..n], s[n..];
    var reg := RegisterNamed(name);
    if name != "" && name[0] == '0' then
      var v := UnsignedNumber(name);
      if v.None? || k != "" then None else Some(Memory(None, None, Signed64(v.value)))
    else if name == "rip" then
      var d := SignedDistance(k);
      if d.None? then None else Some(RipRelative(d.value))
    else if reg.None? then None
    else if k != "" && k[0] == '*' then ScaledAddress(None, name, k)
    else if |k| > 1 && k[0] == '+' && k[1] != '0' then
      var m := WordLength(k[1..]);
      if m == |k| - 1 then None else ScaledAddress(Some(reg.value.reg), k[1..][..m], k[1..][m..])
    else
      var d := SignedDistance(k);
      if d.None? then None else Some(Memory(Some(reg.value.reg), None, d.value))
  }

  lemma WordSplits(w: string, k: string)
    requires IsWord(w) && (k == "" || Separates(k[0]))
    ensures WordLength(w + k) == |w| && (w + k)[..|w|] == w && (w + k)[|w|..] == k
  {
    WordEnds(w, k);
  }

  lemma ScaledReads(names: Names, base: Option<nat>, i: Index, d: int)
    requires ReadsBack(names) && i.reg < 16 && i.shift < 4
    ensures ScaledAddress(base, names(i.reg, true), "*" + (Hex(Scale(i.shift)) + Displaced(d)))
            == Some(Memory(base, Some(i), d))
  {
    assert NameReads(names(i.reg, true), i.reg, true);
    var t := Hex(Scale(i.shift)) + Displaced(d);
    Behind('*', t);
    HexReads(Scale(i.shift));
    DisplacedReads(d);
    WordSplits(Hex(Scale(i.shift)), Displaced(d));
  }

  lemma OneRegister(name: string, reg: nat, t: string)
    requires NameReads(name, reg, true) && t != "" && t[0] == '*'
    ensures AddressOf(name + t) == ScaledAddress(None, name, t)
  {
    WordSplits(name, t);
  }

  lemma IndexReads(names: Names, i: Index, d: int)
    requires ReadsBack(names) && i.reg < 16 && i.shift < 4
    ensures AddressOf(IndexText(names, i) + Displaced(d)) == Some(Memory(None, Some(i), d))
  {
    var name, t := names(i.reg, true), "*" + (Hex(Scale(i.shift)) + Displaced(d));
    assert NameReads(name, i.reg, true);
    assert IndexText(names, i) + Displaced(d) == name + t;
    OneRegister(name, i.reg, t);
    ScaledReads(names, None, i, d);
  }

  lemma BaseReads(names: Names, b: nat, d: int)
    requires ReadsBack(names) && b < 16
    ensures AddressOf(names(b, true) + Displaced(d)) == Some(Memory(Some(b), None, d))
  {
    assert NameReads(names(b, true), b, true);
    DisplacedReads(d);
    WordSplits(names(b, true), Displaced(d));
  }

  lemma TwoRegisters(base: string, b: nat, name: string, reg: nat, t: string)
    requires NameReads(base, b, true) && NameReads(name, reg, true) && t != "" && t[0] == '*'
    ensures AddressOf(base + ("+" + (name + t))) == ScaledAddress(Some(b), name, t)
  {
    var k := "+" + (name + t);
    WordSplits(base, k);
    WordSplits(name, t);
    Behind('+', name + t);
    assert (name + t)[0] == name[0];
  }

  lemma BothRead(names: Names, b: nat, i: Index, d: int)
    requires ReadsBack(names) && b < 16 && i.reg < 16 && i.shift < 4
    ensures AddressOf(names(b, true) + "+" + IndexText(names, i) + Displaced(d)) == Some(Memory(Some(b), Some(i), d))
  {
    var base, name := names(b, true), names(i.reg, true);
    assert NameReads(base, b, true) && NameReads(name, i.reg, true);
    Regroup(base, name, Hex(Scale(i.shift)), Displaced(d));
    TwoRegisters(base, b, name, i.reg, "*" + (Hex(Scale(i.shift)) + Displaced(d)));
    ScaledReads(names, Some(b), i, d);
  }

  lemma Regroup(a: string, b: string, c: string, d: string)
    ensures a + "+" + (b + "*" + c) + d == a + ("+" + (b + ("*" + (c + d))))
  {
  }

  lemma NumberReads(d: int)
    requires Fits32(d)
    ensures AddressOf(Hex(d % 0x1_0000_0000_0000_0000)) == Some(Memory(None, None, d))
  {
    var v := d % 0x1_0000_0000_0000_0000;
    HexReads(v);
    WordSplits(Hex(v), "");
    assert Hex(v) + "" == Hex(v);
  }

  lemma RipReads(d: int)
    ensures AddressOf("rip" + Displaced(d)) == Some(RipRelative(d))
  {
    DisplacedReads(d);
    WordSplits("rip", Displaced(d));
  }

  // ---------------------------------------------------------------- operands

  const OUTSIDE: string := " ; outside"

  function OperandOf(s: string): Option<Operand> {
    var n := |s|;
    if s == "" then None
    else if s[0] == '[' && s[n - 1] == ']' then
      var rm := if n == 1 then None else AddressOf(s[1..n - 1]);
      if rm.None? then None else Some(Address(rm.value))
    else if s[0] == '.' then
      if n < 11 || s[n - 10..] != OUTSIDE then None
      else
        var d := SignedDistance(s[1..n - 10]);
        if d.None? then None else Some(Away(d.value))
    else if s[0] == '-' || '0' <= s[0] <= '9' then
      var v := SignedNumber(s);
      if v.None? then None else Some(Number(v.value))
    else RegisterNamed(s)
  }

  function CommaAt(s: string): (n: nat)
    ensures n <= |s| && (n < |s| ==> s[n] == ',')
  {
    if s == "" || s[0] == ',' then 0 else 1 + CommaAt(s[1..])
  }

  /** None, one or two operands with a comma and a blank in between. */
  function OperandsOf(s: string): Option<seq<Operand>> {
    var n := CommaAt(s);
    if s == "" then Some([])
    else if n == |s| then
      if OperandOf(s).None? then None else Some([OperandOf(s).value])
    else if n + 1 == |s| || s[n + 1] != ' ' then None
    else
      var a, b := OperandOf(s[..n]), OperandOf(s[n + 2..]);
      if a.None? || b.None? then None else Some([a.value, b.value])
  }

  lemma {:induction false} CommaFound(a: string, k: string)
    requires NoComma(a) && (k == "" || k[0] == ',')
    ensures CommaAt(a + k) == |a|
  {
    if a == "" {
      assert a + k == k;
    } else {
      assert (a + k)[1..] == a[1..] + k;
      CommaFound(a[1..], k);
    }
  }

  lemma OneRead(a: string, x: Operand)
    requires a != "" && NoComma(a) && OperandOf(a) == Some(x)
    ensures OperandsOf(a) == Some([x])
  {
    CommaFound(a, "");
    assert a + "" == a;
  }

  lemma BesideRead(a: string, b: string, x: Operand, y: Operand)
    requires a != "" && NoComma(a) && OperandOf(a) == Some(x) && OperandOf(b) == Some(y)
    ensures OperandsOf(a + ", " + b) == Some([x, y])
  {
    CommaFound(a, ", " + b);
    var s := a + (", " + b);
    assert a + ", " + b == s;
    assert s[..|a|] == a && s[|a| + 2..] == b && s[|a| + 1] == ' ';
  }

  lemma RegisterReads(names: Names, reg: nat, wide: bool)
    requires ReadsBack(names) && reg < 16
    ensures var s := names(reg, wide); s != "" && NoComma(s) && OperandOf(s) == Some(Register(reg, wide))
  {
    assert NameReads(names(reg, wide), reg, wide);
  }

  lemma ImmediateReads(d: int)
    ensures SignedHex(d) != "" && NoComma(SignedHex(d)) && OperandOf(SignedHex(d)) == Some(Number(d))
  {
    SignedReads(d);
  }

  lemma AwayReads(rel: int)
    ensures var s := "." + Displaced(rel) + OUTSIDE; s != "" && NoComma(s) && OperandOf(s) == Some(Away(rel))
  {
    var s := "." + Displaced(rel) + OUTSIDE;
    DisplacedReads(rel);
    var n := |s|;
    assert s[n - 10..] == OUTSIDE && s[1..n - 10] == Displaced(rel);
    forall i | 0 <= i < n ensures s[i] != ',' {
      if 0 < i < n - 10 { assert s[i] == Displaced(rel)[i - 1]; }
    }
  }

  lemma InBrackets(a: string, rm: Rm)
    requires a != "" && NoComma(a) && AddressOf(a) == Some(rm)
    ensures var s := "[" + a + "]"; NoComma(s) && OperandOf(s) == Some(Address(rm))
  {
    var s := "[" + a + "]";
    assert s[1..|s| - 1] == a;
    forall i | 0 <= i < |s| ensures s[i] != ',' {
      if 0 < i < |s| - 1 { assert s[i] == a[i - 1]; }
    }
  }

  lemma NoCommas(a: string, b: string)
    requires NoComma(a) && NoComma(b)
    ensures NoComma(a + b)
  {
  }

  lemma IndexNoComma(names: Names, i: Index)
    requires ReadsBack(names) && i.reg < 16
    ensures IndexText(names, i) != "" && NoComma(IndexText(names, i))
  {
    RegisterReads(names, i.reg, true);
    HexReads(Scale(i.shift));
    NoCommas(names(i.reg, true), "*");
    NoCommas(names(i.reg, true) + "*", Hex(Scale(i.shift)));
  }

  lemma AddressNoComma(names: Names, base: Option<nat>, index: Option<Index>, d: int)
    requires ReadsBack(names) && (base.Some? ==> base.value < 16)
    requires index.Some? ==> index.value.reg < 16 && index.value.shift < 4
    ensures AddressText(names, base, index, d) != "" && NoComma(AddressText(names, base, index, d))
  {
    DisplacedReads(d);
    HexReads(d % 0x1_0000_0000_0000_0000);
    if base.Some? {
      RegisterReads(names, base.value, true);
      NoCommas(names(base.value, true), Displaced(d));
    }
    if index.Some? {
      var t := IndexText(names, index.value);
      IndexNoComma(names, index.value);
      NoCommas(t, Displaced(d));
      if base.Some? {
        NoCommas(names(base.value, true), "+");
        NoCommas(names(base.value, true) + "+", t);
        NoCommas(names(base.value, true) + "+" + t, Displaced(d));
      }
    }
  }

  lemma AddressReads(names: Names, base: Option<nat>, index: Option<Index>, d: int)
    requires ReadsBack(names) && Fits32(d) && (base.Some? ==> base.value < 16)
    requires index.Some? ==> index.value.reg < 16 && index.value.shift < 4
    ensures AddressOf(AddressText(names, base, index, d)) == Some(Memory(base, index, d))
  {
    match (base, index)
    case (Some(b), Some(i)) => BothRead(names, b, i, d);
    case (Some(b), None) => BaseReads(names, b, d);
    case (None, Some(i)) => IndexReads(names, i, d);
    case (None, None) => NumberReads(d);
  }

  /** What an operand text of an instruction stands for. */
  function RmOperand(rm: Rm, wide: bool): Operand { if rm.Direct? then Register(rm.reg, wide) else Address(rm) }

  lemma RmTextReads(names: Names, rm: Rm, wide: bool, s: Shape)
    requires ReadsBack(names) && Encodable(rm, s)
    ensures var t := RmText(names, rm, wide); t != "" && NoComma(t) && OperandOf(t) == Some(RmOperand(rm, wide))
  {
    match rm
    case Direct(r) => RegisterReads(names, r, wide);
    case RipRelative(d) =>
      RipReads(d);
      DisplacedReads(d);
      InBrackets("rip" + Displaced(d), rm);
    case Memory(base, index, d) =>
      EncodedFits(rm, s);
      AddressReads(names, base, index, d);
      AddressNoComma(names, base, index, d);
      InBrackets(AddressText(names, base, index, d), rm);
  }

  // ---------------------------------------------------------------- mnemonics

  function ConditionNamed(s: string): int {
    if s == "o" then 0 else if s == "no" then 1 else if s == "b" then 2 else if s == "ae" then 3
    else if s == "e" then 4 else if s == "ne" then 5 else if s == "be" then 6 else if s == "a" then 7
    else if s == "s" then 8 else if s == "ns" then 9 else if s == "p" then 10 else if s == "np" then 11
    else if s == "l" then 12 else if s == "ge" then 13 else if s == "le" then 14 else if s == "g" then 15
    else -1
  }

  function ArithmeticNamed(s: string): int {
    if s == "add" then 0 else if s == "or" then 1 else if s == "adc" then 2 else if s == "sbb" then 3
    else if s == "and" then 4 else if s == "sub" then 5 else if s == "xor" then 6 else if s == "cmp" then 7
    else -1
  }

  function ThreeLetters(s: string): Option<Word> {
    if s == "mov" then Some(WMov) else if s == "lea" then Some(WLea) else if s == "pop" then Some(WPop)
    else if s == "ret" then Some(WRet) else if s == "nop" then Some(WNop)
    else if s == "not" then Some(Unary(2)) else if s == "neg" then Some(Unary(3)) else if s == "mul" then Some(Unary(4))
    else if s == "div" then Some(Unary(6)) else if s == "inc" then Some(Indirect(0))
    else if s == "dec" then Some(Indirect(1))
    else None
  }

  function MoreLetters(s: string): Option<Word> {
    if s == "test" then Some(WTest) else if s == "imul" then Some(WImul) else if s == "idiv" then Some(Unary(7))
    else if s == "push" then Some(WPush) else if s == "call" then Some(WCall) else if s == "int3" then Some(WInt3)
    else if s == "movzx" then Some(WMovzx) else if s == "movsx" then Some(WMovsx)
    else if s == "leave" then Some(WLeave) else if s == "cpuid" then Some(WCpuid)
    else if s == "movabs" then Some(WMovabs)
    else None
  }

  function WordNamed(s: string): Option<Word> {
    if |s| > 1 && s[0] == 'j' then
      if s == "jmp" then Some(WJmp)
      else if ConditionNamed(s[1..]) >= 0 then Some(JumpOn(ConditionNamed(s[1..])))
      else None
    else if |s| > 3 && s[0] == 's' && s[1] == 'e' && s[2] == 't' then
      if ConditionNamed(s[3..]) >= 0 then Some(SetOn(ConditionNamed(s[3..]))) else None
    else if |s| > 3 then MoreLetters(s)
    else if ArithmeticNamed(s) >= 0 then Some(Arithmetic(ArithmeticNamed(s)))
    else ThreeLetters(s)
  }

  lemma ConditionReads(cc: nat)
    requires cc < 16
    ensures ConditionNamed(CONDITIONS[cc]) == cc && CONDITIONS[cc] != ""
  {
  }

  /** The spellings that different words share, taken as one of them. */
  function Spoken(w: Word): Word {
    match w
    case Unary(k) => if k == 0 then WTest else if k == 5 then WImul else if k == 1 then Unary(7) else w
    case Indirect(k) => if k == 2 then WCall else if k == 4 then WJmp else if k == 6 then WPush else w
    case _ => w
  }

  /** The words of supported instructions. */
  predicate IsSpoken(w: Word) {
    match w
    case Arithmetic(k) => k < 8
    case Unary(k) => k < 8
    case Indirect(k) => k < 3 || k == 4 || k == 6
    case JumpOn(cc) => cc < 16
    case SetOn(cc) => cc < 16
    case WAsciz => false
    case WBad => false
    case _ => true
  }

  lemma ArithmeticReads(w: Word)
    requires w.Arithmetic? && IsSpoken(w)
    ensures WordNamed(Spelling(w)) == Some(Spoken(w))
  {
    assert w.k % 8 == w.k;
  }

  lemma UnaryReads(w: Word)
    requires w.Unary? && IsSpoken(w)
    ensures WordNamed(Spelling(w)) == Some(Spoken(w))
  {
    assert w.k % 8 == w.k;
  }

  lemma IndirectReads(w: Word)
    requires w.Indirect? && IsSpoken(w)
    ensures WordNamed(Spelling(w)) == Some(Spoken(w))
  {
    assert w.k % 8 == w.k;
  }

  lemma JumpNamed(c: string, cc: nat)
    requires c != "" && ConditionNamed(c) == cc
    ensures WordNamed("j" + c) == Some(JumpOn(cc))
  {
    Behind('j', c);
    assert c != "mp";
  }

  lemma SetNamed(c: string, cc: nat)
    requires c != "" && ConditionNamed(c) == cc
    ensures WordNamed("set" + c) == Some(SetOn(cc))
  {
    var s := "set" + c;
    assert s[3..] == c && s[0] == 's' && s[1] == 'e' && s[2] == 't';
  }

  lemma ConditionSpelled(w: Word, c: string)
    requires (w.JumpOn? || w.SetOn?) && IsSpoken(w) && c == CONDITIONS[w.cc]
    ensures Spelling(w) == (if w.JumpOn? then "j" else "set") + c
  {
    assert w.cc % 16 == w.cc;
  }

  lemma ConditionRead(w: Word, c: string, s: string)
    requires (w.JumpOn? || w.SetOn?) && c != "" && ConditionNamed(c) == w.cc
    requires s == (if w.JumpOn? then "j" else "set") + c
    ensures WordNamed(s) == Some(Spoken(w))
  {
    if w.JumpOn? { JumpNamed(c, w.cc); } else { SetNamed(c, w.cc); }
  }

  lemma ConditionalReads(w: Word)
    requires (w.JumpOn? || w.SetOn?) && IsSpoken(w)
    ensures WordNamed(Spelling(w)) == Some(Spoken(w))
  {
    ConditionReads(w.cc);
    ConditionSpelled(w, CONDITIONS[w.cc]);
    ConditionRead(w, CONDITIONS[w.cc], Spelling(w));
  }

  lemma PlainReads(w: Word)
    requires IsSpoken(w) && !w.Arithmetic? && !w.Unary? && !w.Indirect? && !w.JumpOn? && !w.SetOn?
    ensures WordNamed(Spelling(w)) == Some(Spoken(w))
  {
  }

  lemma SpellingReads(w: Word)
    requires IsSpoken(w)
    ensures WordNamed(Spelling(w)) == Some(Spoken(w))
  {
    if w.Arithmetic? {
      ArithmeticReads(w);
    } else if w.Unary? {
      UnaryReads(w);
    } else if w.Indirect? {
      IndirectReads(w);
    } else if w.JumpOn? || w.SetOn? {
      ConditionalReads(w);
    } else {
      PlainReads(w);
    }
  }

  // ---------------------------------------------------------------- instructions

  function Alone(w: Word): Option<Instruction> {
    match w
    case WRet => Some(Ret)
    case WLeave => Some(Leave)
    case WNop => Some(Nop)
    case WInt3 => Some(Int3)
    case WCpuid => Some(Cpuid)
    case _ => None
  }

  function Branch(w: Word, rel: int): Option<Instruction> {
    match w
    case WCall => Some(Call(rel))
    case WJmp => Some(Jmp(rel))
    case JumpOn(cc) => Some(Jcc(cc, rel))
    case _ => None
  }

  function Applied(w: Word, rm: Rm, wide: bool): Option<Instruction> {
    match w
    case WPush => Some(if rm.Direct? then Push(rm.reg) else Group5(6, rm, true))
    case WPop => if rm.Direct? then Some(Pop(rm.reg)) else None
    case WCall => Some(Group5(2, rm, true))
    case WJmp => Some(Group5(4, rm, true))
    case Unary(k) => Some(Group3(k, rm, 0, wide))
    case WImul => Some(Group3(5, rm, 0, wide))
    case Indirect(k) => Some(Group5(k, rm, wide))
    case SetOn(cc) => Some(SetCc(cc, rm))
    case WNop => Some(LongNop(rm, wide))
    case _ => None
  }

  /** A number alone is where a branch goes. */
  function WithOne(w: Word, a: Operand, next: nat): Option<Instruction> {
    match a
    case Register(reg, wide) => Applied(w, Direct(reg), wide)
    case Address(rm) => Applied(w, rm, false)
    case Number(target) => Branch(w, target - next)
    case Away(rel) => Branch(w, rel)
  }

  function WithNumber(w: Word, rm: Rm, wide: bool, v: int): Option<Instruction> {
    match w
    case Arithmetic(k) => Some(Group1(k, rm, v, wide))
    case WTest => Some(Group3(0, rm, v, wide))
    case WMov => Some(MovImm(rm, v, wide))
    case WMovabs => if rm.Direct? && v >= 0 then Some(LoadImm(rm.reg, v, true)) else None
    case _ => None
  }

  function Stored(w: Word, rm: Rm, reg: nat, wide: bool): Option<Instruction> {
    match w
    case Arithmetic(k) => Some(ToRm(AluTo(k), rm, reg, wide))
    case WTest => Some(ToRm(Test, rm, reg, wide))
    case WMov => Some(ToRm(MovTo, rm, reg, wide))
    case _ => None
  }

  function Loaded(w: Word, reg: nat, rm: Rm, wide: bool): Option<Instruction> {
    match w
    case Arithmetic(k) => Some(FromRm(AluFrom(k), reg, rm, wide))
    case WMov => Some(FromRm(MovFrom, reg, rm, wide))
    case WLea => Some(FromRm(Lea, reg, rm, wide))
    case WImul => Some(FromRm(Imul, reg, rm, wide))
    case WMovzx => Some(FromRm(Movzx(false), reg, rm, wide))
    case WMovsx => Some(FromRm(Movsx(false), reg, rm, wide))
    case _ => None
  }

  /** The destination comes first. */
  function WithTwo(w: Word, a: Operand, b: Operand): Option<Instruction> {
    match (a, b)
    case (Register(reg, wide), Number(v)) => WithNumber(w, Direct(reg), wide, v)
    case (Address(rm), Number(v)) => WithNumber(w, rm, false, v)
    case (Address(rm), Register(reg, wide)) => Stored(w, rm, reg, wide)
    case (Register(reg, wide), Address(rm)) => Loaded(w, reg, rm, wide)
    case (Register(to, wide), Register(from, _)) =>
      if Stored(w, Direct(to), from, wide).Some? then Stored(w, Direct(to), from, wide)
      else Loaded(w, to, Direct(from), wide)
    case _ => None
  }

  function Told(w: Word, ops: seq<Operand>, next: nat): Option<Instruction> {
    if |ops| == 0 then Alone(w)
    else if |ops| == 1 then WithOne(w, ops[0], next)
    else if |ops| == 2 then WithTwo(w, ops[0], ops[1])
    else None
  }

  /** The instruction that ends before `next`. */
  function Assemble(mnemonic: string, operands: string, next: nat): Option<Instruction> {
    var w, ops := WordNamed(mnemonic), OperandsOf(operands);
    if w.None? || ops.None? then None else Told(w.value, ops.value, next)
  }

  // ---------------------------------------------------------------- what a listing shows

  /** One instruction of those that mean the same. */
  function Normal(i: Instruction): Instruction {
    match i
    case FromRm(AluFrom(k), reg, Direct(r), wide) => ToRm(AluTo(k), Direct(reg), r, wide)
    case FromRm(MovFrom, reg, Direct(r), wide) => ToRm(MovTo, Direct(reg), r, wide)
    case Group5(op, Direct(r), _) => if op == 6 then Push(r) else i
    case LoadImm(reg, value, false) => MovImm(Direct(reg), value, false)
    case LongNop(rm, _) => if rm.Direct? then i else LongNop(rm, false)
    case _ => i
  }

  /** What of an instruction is shown: not the size of a memory operand unless there is a register
      beside it, not the size that movzx and movsx extend, and idiv for an operation beside it. */
  function Shown(i: Instruction): Instruction {
    match i
    case FromRm(Movzx(_), reg, rm, wide) => FromRm(Movzx(false), reg, rm, wide)
    case FromRm(Movsx(_), reg, rm, wide) => FromRm(Movsx(false), reg, rm, wide)
    case Group1(op, rm, imm, wide) => Group1(op, rm, imm, wide && rm.Direct?)
    case MovImm(rm, imm, wide) => MovImm(rm, imm, wide && rm.Direct?)
    case Group3(op, rm, imm, wide) => Group3(if op == 1 then 7 else op, rm, imm, wide && rm.Direct?)
    case Group5(op, rm, wide) => Group5(op, rm, wide && (op >= 2 || rm.Direct?))
    case _ => i
  }

  /** The listing shows no more than that of instructions that mean different things. */
  predicate Hides(i: Instruction) {
    match i
    case FromRm(Movzx(_), _, _, _) => true
    case FromRm(Movsx(_), _, _, _) => true
    case Group1(_, rm, _, _) => !rm.Direct?
    case MovImm(rm, _, _) => !rm.Direct?
    case Group3(op, rm, _, _) => op == 1 || op == 7 || !rm.Direct?
    case Group5(op, rm, _) => op < 2 && !rm.Direct?
    case _ => false
  }

  lemma MnemonicSpoken(i: Instruction, s: Shape)
    requires Valid(i, s)
    ensures IsSpoken(Mnemonic(i)) && WordNamed(Spelling(Mnemonic(i))) == Some(Spoken(Mnemonic(i)))
  {
    SpellingReads(Mnemonic(i));
  }

  /** The operands of an instruction. */
  function Listed(i: Instruction, codeLength: nat, next: nat): seq<Operand> {
    match i
    case ToRm(_, rm, reg, wide) => [RmOperand(rm, wide), Register(reg, wide)]
    case FromRm(_, reg, rm, wide) => [Register(reg, wide), RmOperand(rm, wide)]
    case Group1(_, rm, imm, wide) => [RmOperand(rm, wide), Number(imm)]
    case MovImm(rm, imm, wide) => [RmOperand(rm, wide), Number(imm)]
    case LoadImm(reg, value, wide) => [Register(reg, wide), Number(value)]
    case Push(reg) => [Register(reg, true)]
    case Pop(reg) => [Register(reg, true)]
    case Call(rel) => [Place(codeLength, next, rel)]
    case Jmp(rel) => [Place(codeLength, next, rel)]
    case Jcc(_, rel) => [Place(codeLength, next, rel)]
    case Group3(op, rm, imm, wide) =>
      if op == 0 then [RmOperand(rm, wide), Number(imm)] else [RmOperand(rm, wide)]
    case Group5(_, rm, wide) => [RmOperand(rm, wide)]
    case SetCc(_, rm) => [RmOperand(rm, false)]
    case LongNop(rm, wide) => [RmOperand(rm, wide)]
    case _ => []
  }

  /** A branch to a place in the code or right behind it shows the place, any other its distance. */
  function Place(codeLength: nat, next: nat, rel: int): Operand {
    if 0 <= next + rel <= codeLength then Number(next + rel) else Away(rel)
  }

  lemma PlaceReads(codeLength: nat, next: nat, rel: int)
    ensures OperandsOf(TargetText(codeLength, next, rel)) == Some([Place(codeLength, next, rel)])
  {
    if !(0 <= next + rel <= codeLength) {
      AwayReads(rel);
      OneRead("." + Displaced(rel) + OUTSIDE, Away(rel));
    } else {
      ImmediateReads(next + rel);
      OneRead(Hex(next + rel), Number(next + rel));
    }
  }

  /** An operand that is a register or in memory, alone or with another one. */
  lemma RmOperandsRead(names: Names, i: Instruction, s: Shape, codeLength: nat, next: nat)
    requires ReadsBack(names) && Valid(i, s) && RmOf(i).Some?
    requires forall wide :: RmShown(names, RmOf(i).value, wide) == RmText(names, RmOf(i).value, wide)
    ensures OperandsOf(Operands(names, i, codeLength, next)) == Some(Listed(i, codeLength, next))
  {
    var rm, wide := RmOf(i).value, if i.Group5? then i.wide else WideOf(i);
    var text, op := RmText(names, rm, wide), RmOperand(rm, wide);
    RmTextReads(names, rm, wide, s);
    if i.ToRm? {
      RegisterReads(names, i.reg, wide);
      BesideRead(text, names(i.reg, wide), op, Register(i.reg, wide));
    } else if i.FromRm? {
      RegisterReads(names, i.reg, wide);
      BesideRead(names(i.reg, wide), text, Register(i.reg, wide), op);
    } else if i.Group1? || i.MovImm? || (i.Group3? && i.op == 0) {
      ImmediateReads(i.imm);
      BesideRead(text, SignedHex(i.imm), op, Number(i.imm));
    } else {
      OneRead(text, op);
    }
  }

  lemma OtherOperandsRead(names: Names, i: Instruction, s: Shape, codeLength: nat, next: nat)
    requires ReadsBack(names) && Valid(i, s) && RmOf(i).None?
    ensures OperandsOf(Operands(names, i, codeLength, next)) == Some(Listed(i, codeLength, next))
  {
    if i.LoadImm? {
      RegisterReads(names, i.reg, i.wide);
      ImmediateReads(i.value);
      BesideRead(names(i.reg, i.wide), Hex(i.value), Register(i.reg, i.wide), Number(i.value));
    } else if i.Push? || i.Pop? {
      RegisterReads(names, i.reg, true);
      OneRead(names(i.reg, true), Register(i.reg, true));
    } else if i.Call? || i.Jmp? || i.Jcc? {
      PlaceReads(codeLength, next, i.rel);
    }
  }

  lemma RmTold(i: Instruction, s: Shape, codeLength: nat, next: nat)
    requires Valid(i, s) && RmOf(i).Some?
    ensures Told(Spoken(Mnemonic(i)), Listed(i, codeLength, next), next) == Some(Shown(Normal(i)))
  {
  }

  lemma OtherTold(i: Instruction, s: Shape, codeLength: nat, next: nat)
    requires Valid(i, s) && RmOf(i).None?
    ensures Told(Spoken(Mnemonic(i)), Listed(i, codeLength, next), next) == Some(Shown(Normal(i)))
  {
  }

  lemma OperandsRead(i: Instruction, s: Shape, codeLength: nat, next: nat)
    requires Valid(i, s) && codeLength < 0x1_0000_0000_0000_0000
    ensures OperandsOf(Operands(NAMES, i, codeLength, next)) == Some(Listed(i, codeLength, next))
  {
    NamesRead();
    NamesAreShort();
    OperandsFit(NAMES, i, s, codeLength, next);
    if RmOf(i).Some? {
      RmOperandsRead(NAMES, i, s, codeLength, next);
    } else {
      OtherOperandsRead(NAMES, i, s, codeLength, next);
    }
  }

  /** Main result: the mnemonic and the operands, as they are spelt, tell the instruction, up to
      what is the same and what is not shown. */
  lemma ListingReads(i: Instruction, s: Shape, codeLength: nat, next: nat)
    requires Valid(i, s) && codeLength < 0x1_0000_0000_0000_0000
    ensures Assemble(Spelling(Mnemonic(i)), Operands(NAMES, i, codeLength, next), next) == Some(Shown(Normal(i)))
  {
    OperandsRead(i, s, codeLength, next);
    MnemonicSpoken(i, s);
    if RmOf(i).Some? { RmTold(i, s, codeLength, next); } else { OtherTold(i, s, codeLength, next); }
  }

  ghost predicate SameListing(names: Names, i: Instruction, j: Instruction, codeLength: nat, next: nat) {
    && Spelling(Mnemonic(i)) == Spelling(Mnemonic(j))
    && Operands(names, i, codeLength, next) == Operands(names, j, codeLength, next)
  }

  lemma LoadShownAlike(names: Names, i: Instruction, codeLength: nat, next: nat)
    requires i.FromRm? && !i.rm.Direct?
    ensures SameListing(names, i, Shown(Normal(i)), codeLength, next)
  {
  }

  lemma RegisterShown(names: Names, reg: nat, wide: bool)
    requires Short(names)
    ensures RmShown(names, Direct(reg), wide) == names(reg, wide)
  {
  }

  lemma MoveShownAlike(names: Names, i: Instruction, codeLength: nat, next: nat)
    requires i.FromRm? && i.rm.Direct? && Short(names)
    ensures SameListing(names, i, Shown(Normal(i)), codeLength, next)
  {
    RegisterShown(names, i.rm.reg, i.wide);
    RegisterShown(names, i.reg, i.wide);
  }

  lemma RmShownAlike(names: Names, i: Instruction, s: Shape, codeLength: nat, next: nat)
    requires Valid(i, s) && RmOf(i).Some? && !i.FromRm? && Short(names)
    ensures SameListing(names, i, Shown(Normal(i)), codeLength, next)
  {
    if i.Group5? && i.rm.Direct? { RegisterShown(names, i.rm.reg, true); }
  }

  lemma OtherShownAlike(names: Names, i: Instruction, s: Shape, codeLength: nat, next: nat)
    requires Valid(i, s) && RmOf(i).None? && Short(names)
    ensures SameListing(names, i, Shown(Normal(i)), codeLength, next)
  {
    if i.LoadImm? { RegisterShown(names, i.reg, i.wide); }
  }

  lemma ShownAlike(names: Names, i: Instruction, s: Shape, codeLength: nat, next: nat)
    requires Valid(i, s) && Short(names)
    ensures SameListing(names, i, Shown(Normal(i)), codeLength, next)
  {
    if i.FromRm? {
      if i.rm.Direct? {
        MoveShownAlike(names, i, codeLength, next);
      } else {
        LoadShownAlike(names, i, codeLength, next);
      }
    } else if RmOf(i).Some? {
      RmShownAlike(names, i, s, codeLength, next);
    } else {
      OtherShownAlike(names, i, s, codeLength, next);
    }
  }

  /** Two instructions are listed alike exactly when no more than what is not shown tells them apart. */
  lemma SameListingIff(i: Instruction, s: Shape, j: Instruction, t: Shape, codeLength: nat, next: nat)
    requires Valid(i, s) && Valid(j, t) && codeLength < 0x1_0000_0000_0000_0000
    ensures SameListing(NAMES, i, j, codeLength, next) <==> Shown(Normal(i)) == Shown(Normal(j))
  {
    ListingReads(i, s, codeLength, next);
    ListingReads(j, t, codeLength, next);
    NamesAreShort();
    ShownAlike(NAMES, i, s, codeLength, next);
    ShownAlike(NAMES, j, t, codeLength, next);
  }

  /** The instruction with the other size of operand, or the other operation of the same name. */
  function Twin(i: Instruction): Instruction
    requires Hides(i)
  {
    match i
    case FromRm(Movzx(word), reg, rm, wide) => FromRm(Movzx(!word), reg, rm, wide)
    case FromRm(Movsx(word), reg, rm, wide) => FromRm(Movsx(!word), reg, rm, wide)
    case Group1(op, rm, imm, wide) => Group1(op, rm, imm, !wide)
    case MovImm(rm, imm, wide) => MovImm(rm, imm, !wide)
    case Group3(op, rm, imm, wide) =>
      if op == 1 || op == 7 then Group3(8 - op, rm, imm, wide) else Group3(op, rm, imm, !wide)
    case Group5(op, rm, wide) => Group5(op, rm, !wide)
  }

  /** Main result: the listing leaves open which instruction is meant exactly for the instructions
      named by Hides. */
  lemma HidesIff(i: Instruction, s: Shape, codeLength: nat, next: nat)
    requires Valid(i, s) && codeLength < 0x1_0000_0000_0000_0000
    ensures Hides(i) <==>
            exists j, t :: Valid(j, t) && SameListing(NAMES, i, j, codeLength, next) && Normal(j) != Normal(i)
  {
    if Hides(i) {
      SameListingIff(i, s, Twin(i), s, codeLength, next);
      assert Valid(Twin(i), s) && SameListing(NAMES, i, Twin(i), codeLength, next) && Normal(Twin(i)) != Normal(i);
    }
    forall j, t | !Hides(i) && Valid(j, t) && SameListing(NAMES, i, j, codeLength, next)
      ensures Normal(j) == Normal(i)
    {
      SameListingIff(i, s, j, t, codeLength, next);
      NothingHidden(i, j);
    }
  }

  const PLAIN: Shape := Shape(false, false, 0, 0, false)

  /** Storing 5 at rbx. */
  function Store(wide: bool): (i: Instruction)
    ensures Valid(i, PLAIN)
  {
    MovImm(Memory(Some(3), None, 0), 5, wide)
  }

  lemma StoreBytes(wide: bool)
    ensures Encode(Store(wide), PLAIN) == (if wide then [0x48] else []) + [0xC7, 0x03, 5, 0, 0, 0]
  {
    FourBytes(5);
    StorePrefix(wide);
    var i := Store(wide);
    assert RmBytes(i, PLAIN) == [3];
    assert Trailer(i, PLAIN) == [5, 0, 0, 0];
    StoreJoined(Prefix(BitsOf(i), false));
  }

  lemma StorePrefix(wide: bool)
    ensures Prefix(BitsOf(Store(wide)), false) == if wide then [0x48] else []
  {
  }

  lemma StoreJoined(prefix: Code)
    ensures prefix + ([0xC7] + ([3] + [5, 0, 0, 0])) == prefix + [0xC7, 0x03, 5, 0, 0, 0]
  {
  }

  /** C7 03 05 00 00 00, which stores four bytes, is listed like 48 C7 03 05 00 00 00, which stores
      eight. */
  lemma StoreSizeIsHidden(codeLength: nat, next: nat)
    requires codeLength < 0x1_0000_0000_0000_0000
    ensures SameListing(NAMES, Store(false), Store(true), codeLength, next)
    ensures Normal(Store(false)) != Normal(Store(true))
  {
    SameListingIff(Store(false), PLAIN, Store(true), PLAIN, codeLength, next);
  }

  lemma FourBytes(v: nat)
    requires v < 256
    ensures LittleBytes(v, 4) == [v, 0, 0, 0]
  {
    assert LittleBytes(0, 1) == [0] && LittleBytes(0, 2) == [0, 0] && LittleBytes(0, 3) == [0, 0, 0];
  }

  lemma NothingHidden(i: Instruction, j: Instruction)
    requires !Hides(i) && Shown(Normal(i)) == Shown(Normal(j))
    ensures Normal(i) == Normal(j)
  {
  }

  // ---------------------------------------------------------------- lines

  /** The address that operands tell of: the place of a branch outside, or one relative to rip. */
  function AddressTold(ops: seq<Operand>, next: nat): Option<Listing.Address> {
    if ops == [] then None
    else
      match ops[0]
      case Away(rel) => Some(FromCode(next + rel))
      case Address(RipRelative(d)) => Some(FromCode(next + d))
      case _ => if ops[1..] == [] then None else AddressTold(ops[1..], next)
  }

  lemma TargetListed(i: Instruction, s: Shape, codeLength: nat, next: nat)
    requires Valid(i, s) && !i.LoadImm?
    ensures Target(i, codeLength, next) == AddressTold(Listed(i, codeLength, next), next)
  {
    var ops := Listed(i, codeLength, next);
    if |ops| == 2 { assert ops[1..] == [ops[1]] && ops[1..][1..] == []; }
  }

  /** The address of a line is the one its operands tell of; what a register is loaded with counts
      as an address itself. */
  lemma TargetIsTold(i: Instruction, s: Shape, codeLength: nat, next: nat, ops: Option<seq<Operand>>)
    requires Valid(i, s) && codeLength < 0x1_0000_0000_0000_0000
    requires ops == OperandsOf(Operands(NAMES, i, codeLength, next))
    ensures ops.Some? && Target(i, codeLength, next) ==
            if i.LoadImm? then Some(Absolute(i.value)) else AddressTold(ops.value, next)
    ensures i.LoadImm? ==> ops.value == [Register(i.reg, i.wide), Number(i.value)]
  {
    OperandsRead(i, s, codeLength, next);
    if !i.LoadImm? { TargetListed(i, s, codeLength, next); }
  }

  /** The characters behind backslashes, and the others. */
  function Unescaped(s: string): string {
    if s == "" then ""
    else if s[0] == '\\' && |s| > 1 then [s[1]] + Unescaped(s[2..])
    else [s[0]] + Unescaped(s[1..])
  }

  /** The text of an embedded string gives back its bytes. */
  lemma {:induction false} DataReads(code: Code, from: nat, end: nat)
    requires from <= end <= |code|
    ensures var s := Unescaped(StringText(code, from, end));
            |s| == end - from && forall i :: 0 <= i < end - from ==> s[i] as nat == code[from + i]
    decreases end - from
  {
    if from < end {
      var c, rest := code[from] as char, StringText(code, from + 1, end);
      DataReads(code, from + 1, end);
      EscapeReads(c, rest);
      var s := Unescaped(StringText(code, from, end));
      forall i | 0 <= i < end - from ensures s[i] as nat == code[from + i] {
        if i > 0 { assert s[i] == Unescaped(rest)[i - 1]; }
      }
    }
  }

  lemma EscapeReads(c: char, rest: string)
    ensures Unescaped((if c == '"' || c == '\\' then ['\\', c] else [c]) + rest) == [c] + Unescaped(rest)
  {
    var e := if c == '"' || c == '\\' then ['\\', c] else [c];
    assert (e + rest)[|e|..] == rest;
  }

  /** A byte that is neither data nor an instruction is shown by its value. */
  lemma BadByteReads(names: Names, code: Code, pos: nat)
    requires pos < |code| && ItemAt(code, pos) == Bad
    ensures var line := LineAt(names, code, pos);
            Spelling(line.mnemonic) == "(bad)" && OperandsOf(line.operands) == Some([Number(code[pos])])
  {
    ImmediateReads(code[pos]);
    OneRead(Hex(code[pos]), Number(code[pos]));
  }
}
