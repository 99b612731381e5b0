/** format_integer_write of src/c/format.c, and when the reader takes its output back. */
module Format {
  import opened Numerals
  import opened Limbs
  import opened Syntax
  import opened Grammar
  import opened RoundTrip
  import opened Printer

  /** A bignum is written in decimal whatever the radix. */
  function FormatInteger(n: int, radix: nat): string
    requires 2 <= radix
  {
    if IsFixnum(n) then (if n < 0 then "-" + Digits(-n, radix) else Digits(n, radix)) else PrintInt(n)
  }

  /** 64 digits hold a fixnum magnitude in every radix. */
  lemma SixtyFourDigits(value: nat, radix: nat)
    requires value <= FIXNUM_MAGNITUDE_MASK && 2 <= radix
    ensures |Digits(value, radix)| <= 61
  {
    PowAdd(2, 30, 31);
    PowAdd(2, 15, 15);
    PowAdd(2, 15, 16);
    assert Pow(2, 15) == 32768 && Pow(2, 16) == 65536;
    PowGrows(2, radix, 61, 61);
    DigitsFit(value, radix, 61);
  }

  /** format_integer_write */
  method FormatIntegerWrite(sink: Sink, n: int, radix: nat)
    requires 2 <= radix
    modifies sink
    ensures sink.text == old(sink.text) + FormatInteger(n, radix)
  {
    if !IsFixnum(n) {
      PrintInteger(sink, n);
      return;
    }
    var magnitude: nat := if n < 0 then -n else n;
    if n < 0 { sink.WriteChar('-'); }
    if magnitude == 0 {
      sink.WriteChar('0');
      return;
    }
    var digits := new char[64];
    SixtyFourDigits(magnitude, radix);
    var len := TakeDigits(magnitude, radix, digits);
    WriteReversed(sink, digits, len);
    Append(old(sink.text), "-", Digits(magnitude, radix));
  }

  // ---------------------------------------------------------------- reading it back

  lemma SignedText(n: int, digits: string, radix: nat)
    requires 2 <= radix <= 16 && AllDigits(digits, radix) && digits != ""
    requires !IsSign(digits[0])
    ensures var token := (if n < 0 then "-" + digits else digits);
            && RadixInteger(token, radix) == Signed(token, Value(digits, radix)) && (Negative(token) <==> n < 0)
            && token[SignLength(token)..] == digits
  {
    assert ("-" + digits)[1..] == digits && digits[0..] == digits;
  }

  lemma NoSign(digits: string, radix: nat)
    requires AllDigits(digits, radix) && digits != ""
    ensures !IsSign(digits[0])
  {
    assert DigitValue(digits[0], radix) >= 0;
  }

  /** The same text is a larger number in a larger radix. */
  lemma {:induction false} LargerRadix(s: string, a: nat, b: nat)
    requires 2 <= a < b && AllDigits(s, a) && AllDigits(s, b) && s != "" && DigitValue(s[0], a) > 0
    ensures 0 < Value(s, a) <= Value(s, b)
    ensures |s| >= 2 ==> Value(s, a) < Value(s, b)
  {
    var t := s[..|s| - 1];
    if t == "" {
      assert Value(t, a) == 0 && Value(t, b) == 0;
    } else {
      LargerRadix(t, a, b);
      var d := DigitValue(s[|s| - 1], a);
      assert d == DigitValue(s[|s| - 1], b);
      Scaled(Value(t, a), Value(t, b), a, b, d);
    }
  }

  lemma Scaled(x: nat, y: nat, a: nat, b: nat, d: nat)
    requires 0 < x <= y && 0 < a < b
    ensures 0 < x * a + d < y * b + d
  {
    Monotone(a, a, x, y);
    Monotone(a + 1, b, y, y);
    Monotone(1, a, x, x);
    assert (a + 1) * y == a * y + y;
  }

  /** Output that fits the token buffer is read back in the same radix exactly when the
      integer is a fixnum or the radix is ten. */
  lemma FormatReadsBackIff(n: int, radix: nat)
    requires 2 <= radix <= 16
    ensures RadixInteger(FormatInteger(n, radix), radix) == Int(n) <==> IsFixnum(n) || radix == 10
  {
    var m: nat := if n < 0 then -n else n;
    if IsFixnum(n) {
      DigitsRead(m, radix);
      NoSign(Digits(m, radix), radix);
      SignedText(n, Digits(m, radix), radix);
    } else {
      DigitsRead(m, 10);
      LeadingDigit(m, 10);
      NoSign(Digits(m, 10), 10);
      BignumInRadix(n, m, radix);
    }
  }

  lemma BignumInRadix(n: int, m: nat, radix: nat)
    requires 2 <= radix <= 16 && !IsFixnum(n) && m == if n < 0 then -n else n
    requires AllDigits(Digits(m, 10), 10) && Value(Digits(m, 10), 10) == m && !IsSign(Digits(m, 10)[0])
    requires DigitValue(Digits(m, 10)[0], 10) > 0
    ensures RadixInteger(PrintInt(n), radix) == Int(n) <==> radix == 10
  {
    var digits := Digits(m, 10);
    SignedText(n, digits, 10);
    DigitCount(m, 10, 1);
    assert Pow(10, 1) == 10 * Pow(10, 0);
    if radix != 10 && AllDigits(digits, radix) {
      SignedText(n, digits, radix);
      assert DigitValue(digits[0], radix) == DigitValue(digits[0], 10);
      if radix < 10 { LargerRadix(digits, radix, 10); } else { LargerRadix(digits, 10, radix); }
    }
  }

  // ---------------------------------------------------------------- text that does not fit

  /** Decimal digits read in base ten are bounded by the first one. */
  lemma {:induction false} TenBounds(s: string)
    requires s != "" && AllDigits(s, 10)
    ensures var d, p := DigitValue(s[0], 10), Pow(10, |s| - 1);
            d * p <= Value(s, 10) && Value(s, 10) + 1 <= (d + 1) * p
  {
    var t := s[..|s| - 1];
    if t == "" {
      assert Value(t, 10) == 0;
    } else {
      TenBounds(t);
      TenFold(DigitValue(s[0], 10), Pow(10, |t| - 1), Value(t, 10), DigitValue(s[|s| - 1], 10));
    }
  }

  lemma TenFold(d: nat, p: nat, v: nat, e: nat)
    requires d * p <= v && v + 1 <= (d + 1) * p && e < 10
    ensures d * (10 * p) <= v * 10 + e && v * 10 + e + 1 <= (d + 1) * (10 * p)
  {
    assert d * (10 * p) == 10 * (d * p) && (d + 1) * (10 * p) == 10 * ((d + 1) * p);
  }

  /** So they are in base sixteen. */
  lemma {:induction false} SixteenBounds(s: string)
    requires s != "" && AllDigits(s, 10)
    ensures AllDigits(s, 16)
    ensures var d, p := DigitValue(s[0], 10), Pow(16, |s| - 1);
            d * p <= Value(s, 16) && 5 * Value(s, 16) + 3 <= (5 * d + 3) * p
  {
    var t := s[..|s| - 1];
    forall i | 0 <= i < |s| ensures DigitValue(s[i], 16) == DigitValue(s[i], 10) {
      assert DigitValue(s[i], 10) >= 0;
    }
    if t == "" {
      assert Value(t, 16) == 0;
    } else {
      SixteenBounds(t);
      SixteenFold(DigitValue(s[0], 10), Pow(16, |t| - 1), Value(t, 16), DigitValue(s[|s| - 1], 10));
    }
  }

  lemma SixteenFold(d: nat, p: nat, v: nat, e: nat)
    requires d * p <= v && 5 * v + 3 <= (5 * d + 3) * p && e < 10
    ensures d * (16 * p) <= v * 16 + e && 5 * (v * 16 + e) + 3 <= (5 * d + 3) * (16 * p)
  {
    assert d * (16 * p) == 16 * (d * p) && (5 * d + 3) * (16 * p) == 16 * ((5 * d + 3) * p);
  }

  lemma FifthPower(b: nat)
    ensures Pow(b, 5) == b * (b * (b * (b * b)))
  {
    assert Pow(b, 5) == b * Pow(b, 4) && Pow(b, 4) == b * Pow(b, 3) && Pow(b, 3) == b * Pow(b, 2);
    assert Pow(b, 2) == b * Pow(b, 1) && Pow(b, 1) == b * Pow(b, 0) && Pow(b, 0) == 1;
  }

  lemma TwentyFifthPowers()
    ensures Pow(16, 25) == 1267650600228229401496703205376
    ensures Pow(10, 25) == 10000000000000000000000000
  {
    PowMul(16, 5, 5);
    PowMul(10, 5, 5);
    FifthPower(16);
    FifthPower(10);
    FifthPower(1048576);
    FifthPower(100000);
  }

  /** 16^125 is at least twice 10^150, and eight times 16^126 at most five times 10^152. */
  lemma BetweenPowersOfTen(e: nat)
    requires e == 125
    ensures 2 * Pow(10, e + 25) <= Pow(16, e) && 8 * Pow(16, e + 1) <= 5 * Pow(10, e + 27)
  {
    TwentyFifthPowers();
    PowMul(16, 25, 5);
    PowMul(10, 25, 5);
    FifthPower(Pow(16, 25));
    FifthPower(Pow(10, 25));
    PowAdd(10, e, 25);
    NextPower(16, e);
    NextPower(10, e + 25);
    NextPower(10, e + 26);
  }

  lemma NextPower(b: nat, e: nat)
    ensures Pow(b, e + 1) == b * Pow(b, e)
  {
  }

  /** The first digits of a long decimal number are another number in base sixteen. */
  lemma CutDigitsDiffer(digits: string, len: nat)
    requires 126 <= len <= 127 && len < |digits| && AllDigits(digits, 10) && DigitValue(digits[0], 10) > 0
    ensures AllDigits(digits[..len], 16) && Value(digits[..len], 16) != Value(digits, 10)
  {
    LeadersDiffer(digits[..len], digits);
  }

  lemma LeadersDiffer(cut: string, digits: string)
    requires 126 <= |cut| <= 127 && |cut| < |digits| && AllDigits(cut, 10) && AllDigits(digits, 10)
    requires cut[0] == digits[0] && DigitValue(digits[0], 10) > 0
    ensures AllDigits(cut, 16) && Value(cut, 16) != Value(digits, 10)
  {
    TenBounds(digits);
    SixteenBounds(cut);
    Between(DigitValue(digits[0], 10), Value(cut, 16), Value(digits, 10), |cut|, |digits| - 1);
  }

  /** A number that starts with the same digit d in sixteen to the len - 1 and in ten to the n. */
  lemma Between(d: nat, v: nat, n: nat, len: nat, digits: nat)
    requires d > 0 && 126 <= len <= 127
    requires d * Pow(16, len - 1) <= v && 5 * v + 3 <= (5 * d + 3) * Pow(16, len - 1)
    requires d * Pow(10, digits) <= n && n + 1 <= (d + 1) * Pow(10, digits)
    ensures v != n
  {
    PowersAt(len);
    if digits < len + 25 {
      PowGrows(10, 10, digits, len + 24);
      Above(d, v, n, Pow(16, len - 1), Pow(10, digits), Pow(10, len + 24));
    } else {
      PowGrows(10, 10, len + 25, digits);
      Below(d, v, n, Pow(16, len - 1), Pow(10, digits), Pow(10, len + 25));
    }
  }

  lemma PowersAt(len: nat)
    requires 126 <= len <= 127
    ensures 2 * Pow(10, len + 24) <= Pow(16, len - 1) && 8 * Pow(16, len - 1) <= 5 * Pow(10, len + 25)
  {
    var e: nat := if len == 126 then len - 1 else len - 2;
    BetweenPowersOfTen(e);
    NextPower(16, e);
    NextPower(10, e + 25);
    NextPower(10, e + 26);
  }

  lemma Above(d: nat, v: nat, n: nat, p: nat, q: nat, r: nat)
    requires d > 0 && d * p <= v && n + 1 <= (d + 1) * q && q <= r && 2 * r <= p
    ensures v > n
  {
    Monotone(d + 1, 2 * d, q, r);
    Monotone(d, d, 2 * r, p);
    assert (2 * d) * r == d * (2 * r);
  }

  lemma Below(d: nat, v: nat, n: nat, p: nat, q: nat, r: nat)
    requires d > 0 && 5 * v + 3 <= (5 * d + 3) * p && d * q <= n && r <= q && 8 * p <= 5 * r
    ensures v < n
  {
    Monotone(5 * d + 3, 8 * d, p, p);
    Monotone(d, d, 8 * p, 5 * r);
    Monotone(d, d, r, q);
    assert (8 * d) * p == d * (8 * p) && d * (5 * r) == 5 * (d * r);
  }

  lemma CutDiffers(digits: string, len: nat, radix: nat)
    requires radix == 2 || radix == 8 || radix == 16
    requires 126 <= len <= 127 && len < |digits| && AllDigits(digits, 10) && DigitValue(digits[0], 10) > 0
    ensures AllDigits(digits[..len], radix) ==> Value(digits[..len], radix) != Value(digits, 10)
  {
    if AllDigits(digits[..len], radix) {
      if radix == 16 {
        CutDigitsDiffer(digits, len);
      } else {
        ShorterValue(digits, len, 10);
        LargerRadix(digits[..len], radix, 10);
      }
    }
  }

  lemma CutText(text: string, n: int, len: nat, radix: nat)
    requires 2 <= len < |text| && (Negative(text) <==> n < 0)
    requires var body := text[SignLength(text)..len];
             AllDigits(body, radix) ==> Value(body, radix) != if n < 0 then -n else n
    ensures RadixInteger(text[..len], radix) != Int(n)
  {
    assert text[..len][SignLength(text)..] == text[SignLength(text)..len] && text[..len][0] == text[0];
  }

  lemma CutBody(text: string, sign: nat, len: nat)
    requires sign <= len <= |text|
    ensures text[sign..len] == text[sign..][..len - sign]
  {
  }

  lemma CutBignum(n: int, radix: nat)
    requires radix == 2 || radix == 8 || radix == 16
    requires !IsFixnum(n) && |PrintInt(n)| > READER_TOKEN_MAX - 1
    ensures RadixInteger(PrintInt(n)[..READER_TOKEN_MAX - 1], radix) != Int(n)
  {
    var m: nat := if n < 0 then -n else n;
    IntText(n);
    DigitsRead(m, 10);
    LeadingDigit(m, 10);
    var sign := SignLength(PrintInt(n));
    CutDiffers(Digits(m, 10), READER_TOKEN_MAX - 1 - sign, radix);
    CutBody(PrintInt(n), sign, READER_TOKEN_MAX - 1);
    CutText(PrintInt(n), n, READER_TOKEN_MAX - 1, radix);
  }

  /** What is written in radix 2, 8 or 16 comes back through #b, #o and #x exactly for fixnums,
      whatever follows. */
  lemma RadixReadsBackIff(n: int, radix: nat, k: string)
    requires (radix == 2 || radix == 8 || radix == 16) && Delimited(k)
    ensures ReadRadix(FormatInteger(n, radix) + k, radix) == Parsed(Int(n), k) <==> IsFixnum(n)
  {
    if IsFixnum(n) {
      FixnumRoundTrip(n, radix, k);
    } else {
      IntText(n);
      TokenReads(PrintInt(n), k);
      if |PrintInt(n)| <= READER_TOKEN_MAX - 1 {
        assert PrintInt(n)[..|PrintInt(n)|] == PrintInt(n);
        FormatReadsBackIff(n, radix);
      } else {
        CutBignum(n, radix);
      }
    }
  }

  /** Fixnums written in radix 2, 8 or 16 come back through #b, #o and #x, whatever follows. */
  lemma FixnumRoundTrip(n: int, radix: nat, k: string)
    requires IsFixnum(n) && (radix == 2 || radix == 8 || radix == 16) && Delimited(k)
    ensures ReadRadix(FormatInteger(n, radix) + k, radix) == Parsed(Int(n), k)
  {
    var m: nat := if n < 0 then -n else n;
    var token := FormatInteger(n, radix);
    SixtyFourDigits(m, radix);
    DigitsPlain(m, radix);
    TokenReads(token, k);
    assert token[..|token|] == token;
    FormatReadsBackIff(n, radix);
  }
}
