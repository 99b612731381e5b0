/** src/c/print.c and the integer part of src/c/format.c as they work: digit and limb buffers
    of fixed size, and characters pushed to a sink. */
module Printer {
  import opened Numerals
  import opened Limbs
  import opened Syntax

  /** os_char_sink_t */
  class Sink {
    var text: string

    constructor ()
      ensures text == ""
    {
      text := "";
    }

    method WriteChar(c: char)
      modifies this
      ensures text == old(text) + [c]
    {
      text := text + [c];
    }

    method WriteString(s: string)
      modifies this
      ensures text == old(text) + s
    {
      for i := 0 to |s|
        invariant text == old(text) + s[..i]
      {
        WriteChar(s[i]);
        assert s[..i + 1] == s[..i] + [s[i]];
      }
      assert s[..|s|] == s;
    }
  }

  // ---------------------------------------------------------------- numbers

  const UINT64_MAX: nat := 0xFFFF_FFFF_FFFF_FFFF
  const FIXNUM_MAGNITUDE_MASK: nat := 0xFFF_FFFF_FFFF_FFFF

  predicate IsFixnum(n: int) { -(FIXNUM_MAGNITUDE_MASK as int) <= n <= FIXNUM_MAGNITUDE_MASK }

  /** The second half of every digit loop: the buffer from its end to its start. */
  method WriteReversed(sink: Sink, digits: array<char>, count: nat)
    requires count <= digits.Length
    modifies sink
    ensures sink.text == old(sink.text) + Reversed(digits[..count])
  {
    var len := count;
    while len > 0
      invariant 0 <= len <= count
      invariant sink.text + Reversed(digits[..len]) == old(sink.text) + Reversed(digits[..count])
    {
      len := len - 1;
      ReversedSnoc(digits[..len], digits[len]);
      assert digits[..len + 1] == digits[..len] + [digits[len]];
      sink.WriteChar(digits[len]);
    }
    assert digits[..0] == [];
  }

  /** The first half: the digits of a positive number, least significant first. */
  method TakeDigits(value: nat, radix: nat, digits: array<char>) returns (len: nat)
    requires value > 0 && 2 <= radix && |Digits(value, radix)| <= digits.Length
    modifies digits
    ensures len <= digits.Length && Reversed(digits[..len]) == Digits(value, radix)
  {
    var v: nat := value;
    len := 0;
    assert Reversed(digits[..0]) == "";
    while v > 0
      invariant len <= digits.Length
      invariant Pending(v, radix) + Reversed(digits[..len]) == Digits(value, radix)
      decreases v
    {
      DigitMoves(v, radix, digits[..len]);
      assert |Pending(v, radix)| > 0;
      ghost var taken := digits[..len];
      digits[len] := DigitChar(v % radix);
      assert digits[..len + 1] == taken + [DigitChar(v % radix)];
      len := len + 1;
      v := v / radix;
    }
  }

  lemma DigitsFit(value: nat, radix: nat, k: nat)
    requires 2 <= radix && k >= 1 && value < Pow(radix, k)
    ensures |Digits(value, radix)| <= k
  {
    DigitCount(value, radix, k);
  }

  /** print_fixnum: twenty digits are enough for 64 bits. */
  method PrintFixnum(sink: Sink, value: nat)
    requires value <= UINT64_MAX
    modifies sink
    ensures sink.text == old(sink.text) + Digits(value, 10)
  {
    if value == 0 {
      sink.WriteChar('0');
      return;
    }
    var digits := new char[20];
    PowAdd(10, 10, 10);
    assert Pow(10, 10) == 10_000_000_000;
    DigitsFit(value, 10, 20);
    var len := TakeDigits(value, 10, digits);
    WriteReversed(sink, digits, len);
  }

  /** The limbs that os_make_integer stores for a magnitude. */
  function LimbsOf(m: nat): (limbs: seq<nat>)
    ensures AllLimbs(limbs) && Trimmed(limbs) && Magnitude(limbs) == m
  {
    if m < LIMB then [m] else [m % LIMB] + LimbsOf(m / LIMB)
  }

  /** Ten decimal digits per limb are enough. */
  lemma TenDigitsPerLimb(limbs: seq<nat>)
    requires AllLimbs(limbs) && limbs != []
    ensures |Digits(Magnitude(limbs), 10)| <= 10 * |limbs|
  {
    MagnitudeBound(limbs);
    PowMul(10, 10, |limbs|);
    assert Pow(10, 10) == 10_000_000_000;
    PowGrows(LIMB, Pow(10, 10), |limbs|, |limbs|);
    DigitsFit(Magnitude(limbs), 10, 10 * |limbs|);
  }

  /** print_bignum: a copy of the limbs is divided by ten until nothing is left. */
  method PrintBignum(sink: Sink, negative: bool, src: seq<nat>)
    requires AllLimbs(src) && Trimmed(src) && Magnitude(src) > 0
    modifies sink
    ensures sink.text == old(sink.text) + (if negative then "-" else "") + Digits(Magnitude(src), 10)
  {
    var count := |src|;
    var work := new nat[count](i requires 0 <= i < count => src[i]);
    var digits := new char[10 * count];
    assert work[..] == src && work[..count] == src;
    TenDigitsPerLimb(src);
    if negative { sink.WriteChar('-'); }
    ghost var printed := sink.text;
    var len := TakeBignumDigits(work, count, digits, src);
    WriteReversed(sink, digits, len);
  }

  lemma OneLimbZero(limbs: seq<nat>)
    requires Trimmed(limbs)
    ensures Magnitude(limbs) == 0 <==> |limbs| == 1 && limbs[0] == 0
  {
    if |limbs| > 1 {
      NotZero(limbs);
    } else {
      assert Magnitude(limbs[1..]) == 0;
    }
  }

  lemma {:induction false} NotZero(limbs: seq<nat>)
    requires |limbs| >= 1 && limbs[|limbs| - 1] != 0
    ensures Magnitude(limbs) > 0
  {
    if |limbs| > 1 { NotZero(limbs[1..]); }
  }

  method TakeBignumDigits(work: array<nat>, size: nat, digits: array<char>, ghost src: seq<nat>) returns (len: nat)
    requires size <= work.Length && src == work[..size] && AllLimbs(src) && Trimmed(src) && Magnitude(src) > 0
    requires |Digits(Magnitude(src), 10)| <= digits.Length
    modifies work, digits
    ensures len <= digits.Length && Reversed(digits[..len]) == Digits(Magnitude(src), 10)
  {
    var count := size;
    len := 0;
    assert Reversed(digits[..0]) == "";
    OneLimbZero(src);
    while count > 1 || work[0] != 0
      invariant 1 <= count <= work.Length && AllLimbs(work[..count]) && Trimmed(work[..count]) && len <= digits.Length
      invariant Pending(Magnitude(work[..count]), 10) + Reversed(digits[..len]) == Digits(Magnitude(src), 10)
      decreases Magnitude(work[..count])
    {
      ghost var v := Magnitude(work[..count]);
      OneLimbZero(work[..count]);
      DigitMoves(v, 10, digits[..len]);
      var n, rem := DivmodSmall(work, count, 10);
      QuotientIs(v, Magnitude(work[..n]), 10, rem);
      ghost var taken := digits[..len];
      digits[len] := DigitChar(rem);
      assert digits[..len + 1] == taken + [DigitChar(rem)];
      len := len + 1;
      count := n;
    }
    OneLimbZero(work[..count]);
  }

  lemma QuotientIs(n: nat, q: nat, d: nat, r: nat)
    requires n == q * d + r && r < d
    ensures q == n / d && r == n % d
  {
    Division(n, d);
    OneQuotient(q, r, n / d, n % d, d);
  }

  lemma OneQuotient(q: nat, r: nat, p: nat, s: nat, d: nat)
    requires q * d + r == p * d + s && r < d && s < d
    ensures q == p && r == s
  {
    if q < p {
      AtLeast(q, p, d);
    } else if p < q {
      AtLeast(p, q, d);
    }
  }

  lemma AtLeast(q: nat, p: nat, d: nat)
    requires q < p
    ensures p * d >= q * d + d
  {
    Monotone(q + 1, p, d, d);
    assert (q + 1) * d == q * d + d;
  }

  /** TAG_FIXNUM and MAGIC_BIGNUM in print_value */
  method PrintInteger(sink: Sink, n: int)
    modifies sink
    ensures sink.text == old(sink.text) + PrintInt(n)
  {
    var magnitude: nat := if n < 0 then -n else n;
    if IsFixnum(n) {
      if n < 0 { sink.WriteChar('-'); }
      PrintFixnum(sink, magnitude);
    } else {
      PrintBignum(sink, n < 0, LimbsOf(magnitude));
    }
  }

  // ---------------------------------------------------------------- data

  /** print_string with `escaped` set */
  method PrintString(sink: Sink, text: string)
    modifies sink
    ensures sink.text == old(sink.text) + ("\"" + Escaped(text) + "\"")
  {
    sink.WriteChar('"');
    assert text[0..] == text;
    ghost var whole := old(sink.text) + "\"" + Escaped(text);
    for i := 0 to |text|
      invariant sink.text + Escaped(text[i..]) == whole
    {
      ghost var before := sink.text;
      if text[i] == '"' || text[i] == '\\' { sink.WriteChar('\\'); }
      sink.WriteChar(text[i]);
      assert text[i..][1..] == text[i + 1..];
    }
    assert text[|text|..] == "";
    assert sink.text == whole;
    sink.WriteChar('"');
  }

  /** print_value with `escaped` set */
  method PrintValue(sink: Sink, d: Datum)
    requires WellFormed(d)
    modifies sink
    ensures sink.text == old(sink.text) + Print(d)
    decreases d, Layers(d) + 2, 0
  {
    match d
    case Nil => sink.WriteString("NIL");
    case Int(n) => PrintInteger(sink, n);
    case Float(token) => sink.WriteString(token);
    case Sym(name) => sink.WriteString(name);
    case Str(text) => PrintString(sink, text);
    case Char(c) =>
      sink.WriteString("#\\");
      sink.WriteString(CharName(c));
    case Pair(_, _) => PrintList(sink, d);
    case Array(_, _) => PrintArray(sink, d);
  }

  lemma Join(before: string, separator: string, element: string, rest: string)
    ensures before + separator + element + rest == before + (separator + element + rest)
    ensures separator == "" ==> before + element + rest == before + (element + rest)
  {
    if separator == "" {
      assert before + separator == before && separator + element == element;
    }
  }

  lemma Parenthesized(before: string, inside: string)
    ensures before + "(" + inside + ")" == before + ("(" + inside + ")")
  {
  }

  /** print_list */
  method PrintList(sink: Sink, d: Datum)
    requires d.Pair? && WellFormed(d)
    modifies sink
    ensures sink.text == old(sink.text) + Print(d)
    decreases d, 0, 0
  {
    sink.WriteChar('(');
    ghost var inside := Print(d.car) + PrintTail(d.cdr);
    ghost var begun := sink.text;
    var current := d;
    var first := true;
    while current.Pair?
      invariant WellFormed(current) && (if first then current == d else current < d)
      invariant if first then sink.text == begun else sink.text + PrintTail(current) == begun + inside
      decreases current
    {
      Join(sink.text, if first then "" else " ", Print(current.car), PrintTail(current.cdr));
      if !first { sink.WriteChar(' '); }
      first := false;
      PrintValue(sink, current.car);
      current := current.cdr;
    }
    if !current.Nil? {
      sink.WriteString(" . ");
      PrintValue(sink, current);
    }
    assert sink.text == begun + inside;
    sink.WriteChar(')');
    Parenthesized(old(sink.text), inside);
  }

  /** print_array_level; returns the position of the next element. */
  method PrintArrayLevel(sink: Sink, a: Datum, level: nat, pos: nat) returns (next: nat)
    requires a.Array? && WellFormed(a) && level <= |a.dims| && pos + Volume(a.dims, level) <= |a.data|
    modifies sink
    ensures sink.text == old(sink.text) + PrintLevel(a, level, pos) && next == pos + Volume(a.dims, level)
    decreases a, |a.dims| - level, 1
  {
    if level == |a.dims| {
      PrintValue(sink, a.data[pos]);
      return pos + 1;
    }
    next := pos;
    sink.WriteChar('(');
    ghost var begun := sink.text;
    for i := 0 to a.dims[level]
      invariant next + RowVolume(a.dims, level, i) == pos + Volume(a.dims, level)
      invariant sink.text + PrintRow(a, level, i, next) == begun + PrintRow(a, level, 0, pos)
    {
      RowSplit(a, level, i, next, sink.text);
      if i != 0 { sink.WriteChar(' '); }
      next := PrintArrayLevel(sink, a, level + 1, next);
    }
    sink.WriteChar(')');
    Parenthesized(old(sink.text), PrintRow(a, level, 0, pos));
  }

  lemma RowSplit(a: Datum, level: nat, i: nat, pos: nat, before: string)
    requires a.Array? && WellFormed(a) && level < |a.dims| && i < a.dims[level]
    requires pos + RowVolume(a.dims, level, i) <= |a.data|
    ensures before + PrintRow(a, level, i, pos) ==
            (if i != 0 then before + " " else before) + PrintLevel(a, level + 1, pos)
            + PrintRow(a, level, i + 1, pos + Volume(a.dims, level + 1))
  {
    Join(before, if i != 0 then " " else "", PrintLevel(a, level + 1, pos),
        PrintRow(a, level, i + 1, pos + Volume(a.dims, level + 1)));
    assert i == 0 ==> before + "" == before;
  }

  /** print_vector */
  method PrintArray(sink: Sink, a: Datum)
    requires a.Array? && WellFormed(a)
    modifies sink
    ensures sink.text == old(sink.text) + Print(a)
    decreases a, |a.dims| + 1, 0
  {
    PrintRank(sink, |a.dims|);
    var end := PrintArrayLevel(sink, a, 0, 0);
    Append(old(sink.text), ArrayPrefix(|a.dims|), PrintLevel(a, 0, 0));
  }

  method PrintRank(sink: Sink, rank: nat)
    requires rank <= MAX_ARRAY_RANK
    modifies sink
    ensures sink.text == old(sink.text) + ArrayPrefix(rank)
  {
    sink.WriteChar('#');
    if rank == 1 { return; }
    PrintFixnum(sink, rank);
    sink.WriteString(if rank == 0 then "A " else "A");
    Prefix(old(sink.text), Digits(rank, 10), RankBlank(rank));
    assert "A" + RankBlank(rank) == if rank == 0 then "A " else "A";
  }

  lemma Append(a: string, b: string, c: string)
    ensures a + b + c == a + (b + c)
  {
  }

  lemma Prefix(before: string, digits: string, blank: string)
    ensures before + "#" + digits + ("A" + blank) == before + ("#" + (digits + ("A" + blank)))
  {
  }
}
