/** Machine words as naturals: their limits, and the shift and mask operators. */
module Bits {

  const U32_LIMIT: nat := 0x1_0000_0000

  const U64_LIMIT: nat := 0x1_0000_0000_0000_0000

  function Pow2(k: nat): (r: nat)
    ensures r > 0
  {
    if k == 0 then 1 else 2 * Pow2(k - 1)
  }

  function Or(a: nat, b: nat): nat
    decreases a + b
  {
    if a == 0 && b == 0 then 0
    else 2 * Or(a / 2, b / 2) + (if a % 2 == 1 || b % 2 == 1 then 1 else 0)
  }

  function And(a: nat, b: nat): nat
  {
    if a == 0 then 0
    else 2 * And(a / 2, b / 2) + (if a % 2 == 1 && b % 2 == 1 then 1 else 0)
  }

  /** `x >> k`. */
  function Shr(x: nat, k: nat): nat {
    Quotient(x, Pow2(k))
  }

  function Quotient(x: nat, d: nat): nat
    requires d > 0
  {
    x / d
  }

  /** `x << k` in a word of `width` bits: the bits pushed out at the top are lost. */
  function Shl(x: nat, k: nat, width: nat): nat {
    (x * Pow2(k)) % Pow2(width)
  }

  lemma {:induction false} Pow2Add(j: nat, k: nat)
    ensures Pow2(j + k) == Pow2(j) * Pow2(k)
  {
    if j > 0 {
      Pow2Add(j - 1, k);
      assert Pow2(j + k) == 2 * (Pow2(j - 1) * Pow2(k)) == Pow2(j) * Pow2(k);
    }
  }

  lemma {:induction false} OrZero(a: nat)
    ensures Or(a, 0) == a && Or(0, a) == a
  {
    if a > 0 {
      OrZero(a / 2);
    }
  }

  /** Or-ing a value into the `k` bits a left shift has cleared is addition. */
  lemma {:induction false} OrDisjoint(a: nat, b: nat, k: nat)
    requires b < Pow2(k)
    ensures Or(a * Pow2(k), b) == a * Pow2(k) + b
  {
    if k == 0 {
      OrZero(a);
    } else {
      var h := a * Pow2(k - 1);
      assert a * Pow2(k) == 2 * h;
      OrDisjoint(a, b / 2, k - 1);
      if h == 0 && b == 0 {
      } else {
        assert (2 * h) / 2 == h && (2 * h) % 2 == 0;
      }
    }
  }

  /** Masking with `2^k - 1` keeps the low `k` bits. */
  lemma {:induction false} AndMask(x: nat, k: nat)
    ensures And(x, Pow2(k) - 1) == x % Pow2(k)
  {
    if k == 0 {
      AndNothing(x);
    } else {
      var m := Pow2(k - 1);
      AndMask(x / 2, k - 1);
      AndStep(x, m);
      ModTwice(x, m);
    }
  }

  lemma AndStep(x: nat, m: nat)
    requires m > 0
    ensures And(x, 2 * m - 1) == 2 * And(x / 2, m - 1) + x % 2
  {
    assert (2 * m - 1) / 2 == m - 1 && (2 * m - 1) % 2 == 1;
  }

  lemma {:induction false} AndNothing(x: nat)
    ensures And(x, 0) == 0
  {
    if x > 0 {
      AndNothing(x / 2);
    }
  }

  lemma ModTwice(x: nat, m: nat)
    requires m > 0
    ensures x % (2 * m) == 2 * ((x / 2) % m) + x % 2
  {
    var q, r := x / 2 / m, x / 2 % m;
    assert x / 2 == m * q + r;
    assert x == (2 * m) * q + (2 * r + x % 2);
    DivModUnique(x, 2 * m, q, 2 * r + x % 2);
  }

  lemma DivModUnique(x: nat, d: nat, q: nat, r: nat)
    requires 0 <= r < d && x == d * q + r
    ensures x / d == q && x % d == r
  {
    var q', r' := x / d, x % d;
    assert x == d * q' + r';
    if q > q' {
      MulStep(d, q' + 1, q);
    } else if q < q' {
      MulStep(d, q + 1, q');
    }
  }

  lemma MulStep(d: nat, a: nat, b: nat)
    requires a <= b
    ensures d * (a - 1) + d == d * a <= d * b
  {
  }

  /** `(x >> i) & 1 == 1`, the test of bit `i`. */
  predicate Bit(x: nat, i: nat) {
    And(Shr(x, i), 1) == 1
  }

  lemma BitIsParity(x: nat, i: nat)
    ensures Bit(x, i) <==> (x / Pow2(i)) % 2 == 1
  {
    AndMask(Shr(x, i), 1);
    assert Pow2(1) == 2;
  }
}
