/** The limb operations of src/c/runtime.c that the reader and the printer use, on arrays in
    place. */
module Limbs {
  import opened Numerals

  /** mag_len */
  method EffectiveLength(limbs: array<nat>, count: nat) returns (n: nat)
    requires 1 <= count <= limbs.Length
    ensures 1 <= n <= count && Trimmed(limbs[..n]) && Magnitude(limbs[..n]) == Magnitude(limbs[..count])
  {
    n := count;
    while n > 1 && limbs[n - 1] == 0
      invariant 1 <= n <= count && Magnitude(limbs[..n]) == Magnitude(limbs[..count])
    {
      MagnitudeSnoc(limbs[..n - 1], 0);
      assert limbs[..n] == limbs[..n - 1] + [0];
      n := n - 1;
    }
  }

  /** What a multiplication under way stands for. */
  function WithCarry(done: seq<nat>, carry: nat): nat { Magnitude(done) + Pow(LIMB, |done|) * carry }

  /** The multiplication of the first limbs alone. */
  function Multiplied(limbs: seq<nat>, mul: nat, add: nat): nat { Magnitude(limbs) * mul + add }

  lemma CarrySmall(limb: nat, mul: nat, carry: nat, low: nat, high: nat)
    requires limb < LIMB && mul < LIMB && carry < LIMB && limb * mul + carry == high * LIMB + low
    ensures limb * mul + carry < LIMB * LIMB && high < LIMB
  {
    Monotone(limb, LIMB - 1, mul, LIMB - 1);
  }

  /** One limb of a multiplication: what is written and what is carried. */
  lemma MultiplyStep(done: seq<nat>, before: seq<nat>, limb: nat, mul: nat, add: nat, carry: nat, low: nat, high: nat)
    requires |done| == |before| && WithCarry(done, carry) == Multiplied(before, mul, add)
    requires limb * mul + carry == high * LIMB + low
    ensures WithCarry(done + [low], high) == Multiplied(before + [limb], mul, add)
  {
    MagnitudeSnoc(done, low);
    MagnitudeSnoc(before, limb);
    Distribute(Magnitude(before), Magnitude(done), Pow(LIMB, |done|), limb, mul, add, carry, low, high);
  }

  lemma Distribute(before: nat, done: nat, p: nat, limb: nat, mul: nat, add: nat, carry: nat, low: nat, high: nat)
    requires done + p * carry == before * mul + add && limb * mul + carry == high * LIMB + low
    ensures (done + p * low) + (LIMB * p) * high == (before + p * limb) * mul + add
  {
    assert p * (limb * mul + carry) == p * low + (LIMB * p) * high;
    assert p * (limb * mul + carry) == (p * limb) * mul + p * carry;
  }

  /** One round: the product of a limb, split into what is written and what is carried. */
  method MultiplyLimb(limb: nat, mul: nat, carry: nat, ghost done: seq<nat>, ghost before: seq<nat>, ghost add: nat)
    returns (low: nat, high: nat)
    requires limb < LIMB && mul < LIMB && carry < LIMB
    requires |done| == |before| && WithCarry(done, carry) == Multiplied(before, mul, add)
    ensures low < LIMB && high < LIMB && WithCarry(done + [low], high) == Multiplied(before + [limb], mul, add)
  {
    high, low := Split(limb * mul + carry, LIMB);
    CarrySmall(limb, mul, carry, low, high);
    MultiplyStep(done, before, limb, mul, add, carry, low, high);
  }

  /** The loop over the limbs of mag_mul_small_add_small. */
  method MultiplyLimbs(limbs: array<nat>, count: nat, mul: nat, add: nat) returns (carry: nat)
    requires count <= limbs.Length && AllLimbs(limbs[..count]) && mul < LIMB && add < LIMB
    modifies limbs
    ensures carry < LIMB && AllLimbs(limbs[..count])
    ensures WithCarry(limbs[..count], carry) == Multiplied(old(limbs[..count]), mul, add)
  {
    ghost var before := limbs[..count];
    carry := add;
    for i := 0 to count
      invariant carry < LIMB && AllLimbs(limbs[..i]) && limbs[i..count] == before[i..]
      invariant WithCarry(limbs[..i], carry) == Multiplied(before[..i], mul, add)
    {
      ghost var done := limbs[..i];
      var limb := limbs[i];
      assert limb == limbs[i..count][0] == before[i];
      var low, high := MultiplyLimb(limb, mul, carry, done, before[..i], add);
      limbs[i] := low;
      carry := high;
      assert limbs[..i + 1] == done + [low] && before[..i + 1] == before[..i] + [limb];
      assert limbs[i + 1..count] == before[i + 1..];
    }
    assert before[..count] == before;
  }

  /** mag_mul_small_add_small: the array has to hold the result, and 64 bits hold every
      intermediate product. */
  method MulSmallAddSmall(limbs: array<nat>, count: nat, mul: nat, add: nat) returns (n: nat)
    requires 1 <= count <= limbs.Length && AllLimbs(limbs[..count]) && mul < LIMB && add < LIMB
    requires Multiplied(limbs[..count], mul, add) < Pow(LIMB, limbs.Length)
    modifies limbs
    ensures 1 <= n <= limbs.Length && AllLimbs(limbs[..n]) && Trimmed(limbs[..n])
    ensures Magnitude(limbs[..n]) == Multiplied(old(limbs[..count]), mul, add)
  {
    ghost var total := Multiplied(limbs[..count], mul, add);
    var carry: nat := MultiplyLimbs(limbs, count, mul, add);
    var i := WriteCarry(limbs, count, carry);
    n := EffectiveLength(limbs, if i > count then i else count);
  }

  /** The second loop of mag_mul_small_add_small. */
  method WriteCarry(limbs: array<nat>, count: nat, carry0: nat) returns (i: nat)
    requires count <= limbs.Length && carry0 < LIMB && AllLimbs(limbs[..count])
    requires WithCarry(limbs[..count], carry0) < Pow(LIMB, limbs.Length)
    modifies limbs
    ensures count <= i <= limbs.Length && AllLimbs(limbs[..i])
    ensures Magnitude(limbs[..i]) == WithCarry(old(limbs[..count]), carry0)
  {
    var carry: nat := carry0;
    i := count;
    while carry != 0
      invariant count <= i <= limbs.Length && carry < LIMB && AllLimbs(limbs[..i])
      invariant WithCarry(limbs[..i], carry) == WithCarry(old(limbs[..count]), carry0)
      decreases carry
    {
      CarryFits(limbs[..i], carry, limbs.Length);
      MagnitudeSnoc(limbs[..i], carry);
      ghost var done := limbs[..i];
      limbs[i] := carry % LIMB;
      assert limbs[..i + 1] == done + [carry];
      carry := carry / LIMB;
      i := i + 1;
    }
  }

  lemma CarryFits(done: seq<nat>, carry: nat, capacity: nat)
    requires WithCarry(done, carry) < Pow(LIMB, capacity) && carry > 0 && |done| <= capacity
    ensures |done| < capacity
  {
    Monotone(Pow(LIMB, |done|), Pow(LIMB, |done|), 1, carry);
  }

  function Dividend(quotient: seq<nat>, d: nat, rem: nat): nat { Magnitude(quotient) * d + rem }

  lemma DivideStep(quotient: seq<nat>, before: seq<nat>, rem: nat, limb: nat, d: nat, q: nat, r: nat)
    requires Dividend(quotient, d, rem) == Magnitude(before) && rem * LIMB + limb == q * d + r
    ensures Dividend([q] + quotient, d, r) == Magnitude([limb] + before)
  {
    var m := Magnitude(quotient);
    assert (q + LIMB * m) * d == q * d + LIMB * (m * d);
    assert ([q] + quotient)[1..] == quotient && ([limb] + before)[1..] == before;
  }

  lemma QuotientIsLimb(rem: nat, limb: nat, d: nat, q: nat, r: nat)
    requires rem < d && limb < LIMB && rem * LIMB + limb == q * d + r
    ensures q < LIMB
  {
    Monotone(rem + 1, d, LIMB, LIMB);
    assert (rem + 1) * LIMB == rem * LIMB + LIMB;
    if q >= LIMB { Monotone(d, d, LIMB, q); }
  }

  /** mag_divmod_small, from the most significant limb down. */
  method DivmodSmall(limbs: array<nat>, count: nat, d: nat) returns (n: nat, rem: nat)
    requires 1 <= count <= limbs.Length && AllLimbs(limbs[..count]) && 1 <= d < LIMB
    modifies limbs
    ensures 1 <= n <= count && AllLimbs(limbs[..n]) && Trimmed(limbs[..n]) && rem < d
    ensures Dividend(limbs[..n], d, rem) == Magnitude(old(limbs[..count]))
  {
    rem := DivideLimbs(limbs, count, d);
    n := EffectiveLength(limbs, count);
  }

  /** One round: a limb of the quotient and the remainder to bring down. */
  method DivideLimb(limb: nat, d: nat, rem: nat, ghost done: seq<nat>, ghost before: seq<nat>)
    returns (quotient: nat, remainder: nat)
    requires limb < LIMB && rem < d < LIMB && Dividend(done, d, rem) == Magnitude(before)
    ensures quotient < LIMB && remainder < d
    ensures Dividend([quotient] + done, d, remainder) == Magnitude([limb] + before)
  {
    quotient, remainder := Split(rem * LIMB + limb, d);
    QuotientIsLimb(rem, limb, d, quotient, remainder);
    DivideStep(done, before, rem, limb, d, quotient, remainder);
  }

  method Split(n: nat, d: nat) returns (quotient: nat, remainder: nat)
    requires d >= 1
    ensures n == quotient * d + remainder && remainder < d
  {
    Division(n, d);
    quotient, remainder := n / d, n % d;
  }

  /** The loop over the limbs of mag_divmod_small. */
  method DivideLimbs(limbs: array<nat>, count: nat, d: nat) returns (rem: nat)
    requires count <= limbs.Length && AllLimbs(limbs[..count]) && 1 <= d < LIMB
    modifies limbs
    ensures AllLimbs(limbs[..count]) && rem < d
    ensures Dividend(limbs[..count], d, rem) == Magnitude(old(limbs[..count]))
  {
    ghost var before := limbs[..count];
    rem := 0;
    var i := count;
    while i > 0
      invariant 0 <= i <= count && rem < d
      invariant limbs[..i] == before[..i] && AllLimbs(limbs[i..count])
      invariant Dividend(limbs[i..count], d, rem) == Magnitude(before[i..])
    {
      ghost var done, rest := limbs[i..count], before[i..];
      var limb := limbs[i - 1];
      assert limb == limbs[..i][i - 1] == before[i - 1];
      var quotient, remainder := DivideLimb(limb, d, rem, done, rest);
      limbs[i - 1] := quotient;
      rem := remainder;
      i := i - 1;
      assert limbs[i..count] == [quotient] + done;
      assert before[i..] == [limb] + rest;
    }
    assert limbs[0..count] == limbs[..count];
  }
}
