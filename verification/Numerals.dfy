/** Numbers in a radix, as text and as limbs of 32 bits. */
module Numerals {

  function Pow(base: nat, e: nat): nat {
    if e == 0 then 1 else base * Pow(base, e - 1)
  }

  lemma {:induction false} PowAdd(base: nat, d: nat, e: nat)
    ensures Pow(base, d + e) == Pow(base, d) * Pow(base, e)
  {
    if d > 0 {
      PowAdd(base, d - 1, e);
      Associate(base, Pow(base, d - 1), Pow(base, e));
    }
  }

  lemma Associate(a: nat, b: nat, c: nat)
    ensures a * (b * c) == (a * b) * c
  {
  }

  lemma {:induction false} PowMul(base: nat, d: nat, e: nat)
    ensures Pow(base, d * e) == Pow(Pow(base, d), e)
  {
    if e > 0 {
      PowMul(base, d, e - 1);
      PowAdd(base, d, d * (e - 1));
      assert d * e == d + d * (e - 1);
    }
  }

  lemma {:induction false} PowPositive(base: nat, e: nat)
    requires base >= 1
    ensures Pow(base, e) >= 1
  {
    if e > 0 { PowPositive(base, e - 1); }
  }

  /** A larger base and a larger exponent give a larger power. */
  lemma {:induction false} PowGrows(b: nat, c: nat, d: nat, e: nat)
    requires 1 <= b <= c && d <= e
    ensures Pow(b, d) <= Pow(c, e)
  {
    if d > 0 {
      PowGrows(b, c, d - 1, e - 1);
      assert b * Pow(b, d - 1) <= c * Pow(c, e - 1) by { Monotone(b, c, Pow(b, d - 1), Pow(c, e - 1)); }
    } else {
      PowPositive(c, e);
    }
  }

  lemma Monotone(a: nat, b: nat, x: nat, y: nat)
    requires a <= b && x <= y
    ensures a * x <= b * y
  {
    assert a * x <= a * y && a * y <= b * y;
  }

  // ---------------------------------------------------------------- digits as text

  /** A digit of any radix, in the arithmetic of bytes. */
  function DigitChar(d: nat): char {
    if d < 10 then '0' + d as char else (('A' as nat + (d - 10)) % 0x100) as char
  }

  /** digit_value_in_radix: None for a character that is no digit of this radix. */
  function DigitValue(c: char, radix: nat): (v: int)
    ensures v == -1 || 0 <= v < radix
  {
    var v := if '0' <= c <= '9' then (c - '0') as int
             else if 'A' <= c <= 'F' then 10 + (c - 'A') as int
             else if 'a' <= c <= 'f' then 10 + (c - 'a') as int
             else -1;
    if v < radix then v else -1
  }

  lemma DigitReads(d: nat, radix: nat)
    requires d < radix <= 16
    ensures DigitValue(DigitChar(d), radix) == d
  {
  }

  /** The digits of a number, most significant first. */
  function Digits(n: nat, radix: nat): (s: string)
    requires 2 <= radix
    ensures s != ""
  {
    if n < radix then [DigitChar(n)]
    else
      Smaller(n, radix);
      Digits(n / radix, radix) + [DigitChar(n % radix)]
  }

  predicate AllDigits(s: string, radix: nat) {
    forall i :: 0 <= i < |s| ==> DigitValue(s[i], radix) >= 0
  }

  /** The number a run of digits stands for. */
  function Value(s: string, radix: nat): nat
    requires AllDigits(s, radix)
  {
    if s == "" then 0 else Value(s[..|s| - 1], radix) * radix + DigitValue(s[|s| - 1], radix)
  }

  lemma {:induction false} DigitsRead(n: nat, radix: nat)
    requires 2 <= radix <= 16
    ensures AllDigits(Digits(n, radix), radix) && Value(Digits(n, radix), radix) == n
  {
    if n < radix {
      OneDigit(n, radix);
    } else {
      var q := n / radix;
      Smaller(n, radix);
      DigitsRead(q, radix);
      DigitFollows(Digits(q, radix), n, radix);
    }
  }

  lemma OneDigit(d: nat, radix: nat)
    requires d < radix <= 16
    ensures AllDigits([DigitChar(d)], radix) && Value([DigitChar(d)], radix) == d
  {
    DigitReads(d, radix);
    ValueSnoc("", DigitChar(d), radix);
    assert "" + [DigitChar(d)] == [DigitChar(d)];
  }

  lemma DigitFollows(text: string, n: nat, radix: nat)
    requires 2 <= radix <= 16 && AllDigits(text, radix) && Value(text, radix) == n / radix
    ensures AllDigits(text + [DigitChar(n % radix)], radix) && Value(text + [DigitChar(n % radix)], radix) == n
  {
    DigitReads(n % radix, radix);
    ValueSnoc(text, DigitChar(n % radix), radix);
    Division(n, radix);
  }

  lemma Division(n: nat, d: nat)
    requires d >= 1
    ensures n / d * d + n % d == n
  {
  }

  lemma ValueSnoc(s: string, c: char, radix: nat)
    requires AllDigits(s, radix) && DigitValue(c, radix) >= 0
    ensures AllDigits(s + [c], radix) && Value(s + [c], radix) == Value(s, radix) * radix + DigitValue(c, radix)
  {
    assert (s + [c])[..|s|] == s;
  }

  /** k digits are enough exactly for the numbers below radix to the k. */
  lemma {:induction false} DigitCount(n: nat, radix: nat, k: nat)
    requires 2 <= radix && k >= 1
    ensures |Digits(n, radix)| <= k <==> n < Pow(radix, k)
    decreases k
  {
    assert Pow(radix, k) == radix * Pow(radix, k - 1);
    if k == 1 {
      assert Pow(radix, 0) == 1;
    } else if n < radix {
      PowGrows(radix, radix, 1, k);
      assert Pow(radix, 1) == radix;
    } else {
      DigitCount(n / radix, radix, k - 1);
      assert n / radix < Pow(radix, k - 1) <==> n < radix * Pow(radix, k - 1) by {
        QuotientBound(n, radix, Pow(radix, k - 1));
      }
    }
  }

  lemma QuotientBound(n: nat, d: nat, b: nat)
    requires d >= 1
    ensures n / d < b <==> n < d * b
  {
    var q := n / d;
    assert n == d * q + n % d;
    if q < b {
      Monotone(d, d, q + 1, b);
      assert d * (q + 1) == d * q + d;
    } else {
      Monotone(d, d, b, q);
    }
  }

  lemma Smaller(n: nat, d: nat)
    requires n >= 1 && d >= 2
    ensures n / d < n
  {
    QuotientBound(n, d, n);
    Monotone(2, d, n, n);
  }

  /** Reading any digits gives a number below the power of the radix. */
  lemma {:induction false} ValueBound(s: string, radix: nat)
    requires radix >= 1 && AllDigits(s, radix)
    ensures Value(s, radix) < Pow(radix, |s|)
  {
    if s != "" {
      ValueBound(s[..|s| - 1], radix);
      BelowNext(Value(s[..|s| - 1], radix), Pow(radix, |s| - 1), radix, DigitValue(s[|s| - 1], radix));
    }
  }

  lemma BelowNext(v: nat, p: nat, radix: nat, d: nat)
    requires v < p && d < radix
    ensures v * radix + d < radix * p
  {
    Monotone(radix, radix, v + 1, p);
    assert radix * (v + 1) == v * radix + radix;
  }

  // ---------------------------------------------------------------- taking digits off a number

  function Reversed(s: string): (r: string)
    ensures |r| == |s|
  {
    if s == "" then "" else [s[|s| - 1]] + Reversed(s[..|s| - 1])
  }

  /** The digits still to come when `v` is left. */
  function Pending(v: nat, radix: nat): string
    requires 2 <= radix
  {
    if v == 0 then "" else Digits(v, radix)
  }

  /** One round of a digit loop: the last digit to come is the next one put in the buffer. */
  lemma DigitMoves(v: nat, radix: nat, taken: string)
    requires v > 0 && 2 <= radix
    ensures Pending(v, radix) + Reversed(taken) ==
            Pending(v / radix, radix) + Reversed(taken + [DigitChar(v % radix)])
    ensures v / radix < v
  {
    Smaller(v, radix);
    PendingStep(v, radix);
    MoveDigit(Pending(v, radix), Pending(v / radix, radix), DigitChar(v % radix), taken);
  }

  lemma MoveDigit(pending: string, rest: string, digit: char, taken: string)
    requires pending == rest + [digit]
    ensures pending + Reversed(taken) == rest + Reversed(taken + [digit])
  {
    ReversedSnoc(taken, digit);
    Regroup(rest, digit, Reversed(taken));
  }

  lemma PendingStep(v: nat, radix: nat)
    requires v > 0 && 2 <= radix
    ensures Pending(v, radix) == Pending(v / radix, radix) + [DigitChar(v % radix)]
  {
    if v < radix {
      assert v / radix == 0 && v % radix == v by { QuotientBound(v, radix, 1); }
    } else {
      assert v / radix != 0 by { QuotientBound(v, radix, 1); }
    }
  }

  lemma ReversedSnoc(s: string, c: char)
    ensures Reversed(s + [c]) == [c] + Reversed(s)
  {
    assert (s + [c])[..|s|] == s;
  }

  lemma Regroup(a: string, digit: char, b: string)
    ensures a + [digit] + b == a + ([digit] + b)
  {
  }

  // ---------------------------------------------------------------- limbs

  const LIMB: nat := 0x1_0000_0000

  /** The magnitude of a run of limbs, least significant first. */
  function Magnitude(limbs: seq<nat>): nat {
    if limbs == [] then 0 else limbs[0] + LIMB * Magnitude(limbs[1..])
  }

  predicate AllLimbs(limbs: seq<nat>) {
    forall i :: 0 <= i < |limbs| ==> limbs[i] < LIMB
  }

  /** No leading zero limb, except in zero itself. */
  predicate Trimmed(limbs: seq<nat>) {
    |limbs| >= 1 && (|limbs| == 1 || limbs[|limbs| - 1] != 0)
  }

  lemma {:induction false} MagnitudeBound(limbs: seq<nat>)
    requires AllLimbs(limbs)
    ensures Magnitude(limbs) < Pow(LIMB, |limbs|)
  {
    if limbs != [] {
      MagnitudeBound(limbs[1..]);
    }
  }

  lemma {:induction false} MagnitudeSplit(a: seq<nat>, b: seq<nat>)
    ensures Magnitude(a + b) == Magnitude(a) + Pow(LIMB, |a|) * Magnitude(b)
  {
    if a == [] {
      assert a + b == b;
    } else {
      MagnitudeSplit(a[1..], b);
      assert (a + b)[1..] == a[1..] + b;
      Associate(LIMB, Pow(LIMB, |a| - 1), Magnitude(b));
    }
  }

  lemma MagnitudeSnoc(a: seq<nat>, top: nat)
    ensures Magnitude(a + [top]) == Magnitude(a) + Pow(LIMB, |a|) * top
  {
    MagnitudeSplit(a, [top]);
    assert Magnitude([top]) == top;
  }
}
