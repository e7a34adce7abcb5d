/** The bit operations of Go's uint64 on numbers below 2^64: &, | and << with their usual
    meaning, and what they do to a single bit. */
module Bits {
  const WIDTH: nat := 64

  const TWO_63: nat := 0x8000_0000_0000_0000
  const TWO_64: nat := 0x1_0000_0000_0000_0000

  type uint64 = x: int | 0 <= x < 0x1_0000_0000_0000_0000

  /** a & b. */
  function And(a: nat, b: nat): nat
  {
    if a == 0 || b == 0 then 0
    else 2 * And(a / 2, b / 2) + (if a % 2 == 1 && b % 2 == 1 then 1 else 0)
  }

  /** a | b; the result needs no more bits than the wider operand. */
  function Or(a: nat, b: nat): nat
  {
    if a == 0 then b
    else if b == 0 then a
    else 2 * Or(a / 2, b / 2) + (if a % 2 == 1 || b % 2 == 1 then 1 else 0)
  }

  function Or64(a: uint64, b: uint64): (r: uint64)
    ensures r == Or(a, b)
  {
    PowersOfWidth();
    OrFits(a, b, 64);
    Or(a, b)
  }

  /** b << n on 64 bits: what leaves the top is lost. */
  function ShiftLeft(b: uint64, n: nat): uint64
  {
    if n == 0 then b else 2 * ShiftLeft(b, n - 1) % TWO_64
  }

  /** Bit i of the binary expansion of b. */
  predicate Bit(b: nat, i: nat)
  {
    if i == 0 then b % 2 == 1 else Bit(b / 2, i - 1)
  }

  function Pow2(n: nat): (p: nat)
    ensures p > 0
  {
    if n == 0 then 1 else 2 * Pow2(n - 1)
  }

  // ---------------------------------------------------------------- bits of the operations

  lemma {:induction false} BitOfZero(i: nat)
    ensures !Bit(0, i)
  {
    if i > 0 {
      BitOfZero(i - 1);
    }
  }

  lemma {:induction false} BitOfOne(i: nat)
    ensures Bit(1, i) <==> i == 0
  {
    if i > 0 {
      BitOfZero(i - 1);
    }
  }

  lemma {:induction false} BitOfOr(a: nat, b: nat, i: nat)
    ensures Bit(Or(a, b), i) <==> Bit(a, i) || Bit(b, i)
  {
    if a == 0 || b == 0 {
      BitOfZero(i);
    } else if i > 0 {
      BitOfOr(a / 2, b / 2, i - 1);
    }
  }

  /** Or never carries past the top of a 64-bit word. */
  lemma {:induction false} OrFits(a: nat, b: nat, n: nat)
    requires a < Pow2(n) && b < Pow2(n)
    ensures Or(a, b) < Pow2(n)
  {
    if a != 0 && b != 0 {
      OrFits(a / 2, b / 2, n - 1);
    }
  }

  lemma {:induction false} AndWithPower(b: nat, k: nat)
    ensures And(b, Pow2(k)) != 0 <==> Bit(b, k)
  {
    if b == 0 {
      BitOfZero(k);
    } else if k == 0 {
      assert And(b / 2, 0) == 0;
    } else {
      AndWithPower(b / 2, k - 1);
    }
  }

  lemma HalfOfRemainder(x: nat, p: nat)
    requires p > 0
    ensures (x % (2 * p)) / 2 == (x / 2) % p
    ensures (x % (2 * p)) % 2 == x % 2
  {
    var q, r := x / (2 * p), x % (2 * p);
    assert x == 2 * (p * q) + r by {
      assert (2 * p) * q == 2 * (p * q);
    }
    assert x / 2 == p * q + r / 2;
    QuotientRemainder(p, q, r / 2);
  }

  lemma QuotientRemainder(p: nat, q: nat, r: nat)
    requires r < p
    ensures (p * q + r) % p == r
  {
    var y := p * q + r;
    var d := y / p - q;
    assert p * d == r - y % p by {
      assert p * d == p * (y / p) - p * q;
    }
    BigMultiple(p, d);
  }

  lemma BigMultiple(p: int, d: int)
    requires p > 0
    ensures d >= 1 ==> p * d >= p
    ensures d <= -1 ==> p * d <= 0 - p
  {
    if d >= 1 {
      assert p * d == p + p * (d - 1);
    } else if d <= -1 {
      assert p * d == p * (d + 1) - p;
    }
  }

  lemma {:induction false} BitOfRemainder(x: nat, m: nat, i: nat)
    requires i < m
    ensures Bit(x % Pow2(m), i) <==> Bit(x, i)
  {
    HalfOfRemainder(x, Pow2(m - 1));
    if i > 0 {
      BitOfRemainder(x / 2, m - 1, i - 1);
    }
  }

  lemma PowersOfWidth()
    ensures Pow2(63) == TWO_63 && Pow2(64) == TWO_64
  {
    assert Pow2(8) == 0x100;
    PowerSplit(8, 8);
    PowerSplit(16, 16);
    PowerSplit(32, 32);
  }

  lemma {:induction false} PowerSplit(m: nat, n: nat)
    ensures Pow2(m + n) == Pow2(m) * Pow2(n)
  {
    if n > 0 {
      PowerSplit(m, n - 1);
      assert Pow2(m) * (2 * Pow2(n - 1)) == 2 * (Pow2(m) * Pow2(n - 1));
    }
  }

  lemma BitOfDouble(b: uint64, i: nat)
    requires i < WIDTH
    ensures Bit(2 * b % TWO_64, i) <==> i > 0 && Bit(b, i - 1)
  {
    PowersOfWidth();
    BitOfRemainder(2 * b, 64, i);
    assert (2 * b) / 2 == b;
  }

  lemma {:induction false} BitOfShift(b: uint64, n: nat, i: nat)
    requires i < WIDTH
    ensures Bit(ShiftLeft(b, n), i) <==> n <= i && Bit(b, i - n)
  {
    if n > 0 {
      BitOfDouble(ShiftLeft(b, n - 1), i);
      if i > 0 {
        BitOfShift(b, n - 1, i - 1);
      }
    }
  }

  lemma {:induction false} ShiftedOne(k: nat)
    requires k < WIDTH
    ensures ShiftLeft(1, k) == Pow2(k) < TWO_64
  {
    PowersOfWidth();
    PowersGrow(k, 63);
    if k > 0 {
      ShiftedOne(k - 1);
    }
  }

  lemma {:induction false} PowersGrow(m: nat, n: nat)
    requires m <= n
    ensures Pow2(m) <= Pow2(n)
  {
    if m < n {
      PowersGrow(m, n - 1);
    }
  }

  // ---------------------------------------------------------------- as the replay window uses them

  /** The test b & (1 << k) != 0 reads bit k. */
  lemma MaskReadsBit(b: uint64, k: nat)
    requires k < WIDTH
    ensures And(b, ShiftLeft(1, k)) != 0 <==> Bit(b, k)
  {
    ShiftedOne(k);
    AndWithPower(b, k);
  }

  /** b | (1 << k) sets bit k and no other. */
  lemma MaskSetsBit(b: uint64, k: nat, i: nat)
    requires k < WIDTH && i < WIDTH
    ensures Bit(Or64(b, ShiftLeft(1, k)), i) <==> i == k || Bit(b, i)
  {
    BitOfOr(b, ShiftLeft(1, k), i);
    BitOfShift(1, k, i);
    if k <= i {
      BitOfOne(i - k);
    }
  }

  /** (b << n) | 1 moves every bit up by n and sets bit 0. */
  lemma PushedBit(b: uint64, n: nat, i: nat)
    requires 0 < n && i < WIDTH
    ensures Bit(Or64(ShiftLeft(b, n), 1), i) <==> i == 0 || (n <= i && Bit(b, i - n))
  {
    BitOfOr(ShiftLeft(b, n), 1, i);
    BitOfShift(b, n, i);
    BitOfOne(i);
  }
}
