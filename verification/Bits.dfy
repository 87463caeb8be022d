/** Machine words as naturals, for every word width: the shift and mask operations
    of src/allocator.rs, and what each of them does to a single bit. */
module Bits {

  function Pow2(n: nat): (p: nat)
    ensures p >= 1
  {
    if n == 0 then 1 else 2 * Pow2(n - 1)
  }

  function Shl(a: nat, k: nat): nat {
    if k == 0 then a else 2 * Shl(a, k - 1)
  }

  function Shr(a: nat, k: nat): nat {
    if k == 0 then a else Shr(a / 2, k - 1)
  }

  function And(a: nat, b: nat): nat {
    if a == 0 || b == 0 then 0
    else (if a % 2 == 1 && b % 2 == 1 then 1 else 0) + 2 * And(a / 2, b / 2)
  }

  function Or(a: nat, b: nat): nat {
    if a == 0 then b
    else if b == 0 then a
    else (if a % 2 == 1 || b % 2 == 1 then 1 else 0) + 2 * Or(a / 2, b / 2)
  }

  /** The complement of a `w`-bit word. */
  function Not(w: nat, a: nat): nat
    requires a < Pow2(w)
  {
    Pow2(w) - 1 - a
  }

  predicate Bit(a: nat, i: nat) {
    if i == 0 then a % 2 == 1 else Bit(a / 2, i - 1)
  }

  function TrailingZeros(a: nat): nat
    requires a > 0
  {
    if a % 2 == 1 then 0 else 1 + TrailingZeros(a / 2)
  }

  /** Index of the highest set bit: `31 - leading_zeros` on a 32-bit word. */
  function Msb(a: nat): (m: nat)
    requires a > 0
    ensures Pow2(m) <= a < Pow2(m + 1)
  {
    if a == 1 then 0 else 1 + Msb(a / 2)
  }

  predicate IsPow2(a: nat) {
    a == 1 || (a > 1 && a % 2 == 0 && IsPow2(a / 2))
  }

  // ---- arithmetic of powers of two ----

  lemma DivUnique(a: int, m: int, q: int, r: int)
    requires m > 0 && 0 <= r < m && a == q * m + r
    ensures a / m == q && a % m == r
  {
    var q' := a / m;
    assert (q - q') * m == a % m - r by { Distribute(q, q', m); }
    if q < q' {
      MulAtLeast(q' - q, m);
    } else if q > q' {
      MulAtLeast(q - q', m);
    }
  }

  lemma Distribute(x: int, y: int, m: int)
    ensures (x - y) * m == x * m - y * m
  {}

  lemma MulAtLeast(k: int, m: int)
    requires k >= 1 && m >= 0
    ensures k * m >= m
  {}

  lemma Pow2Mono(i: nat, j: nat)
    requires i <= j
    ensures Pow2(i) <= Pow2(j)
    ensures i < j ==> 2 * Pow2(i) <= Pow2(j)
    decreases j
  {
    if i < j { Pow2Mono(i, j - 1); }
  }

  lemma Pow2Add(i: nat, j: nat)
    ensures Pow2(i + j) == Pow2(i) * Pow2(j)
  {
    if i > 0 {
      Pow2Add(i - 1, j);
      assert 2 * Pow2(i - 1) * Pow2(j) == Pow2(i) * Pow2(j);
    }
  }

  lemma {:induction false} IsPow2Log(a: nat) returns (k: nat)
    requires IsPow2(a)
    ensures a == Pow2(k)
  {
    if a == 1 {
      k := 0;
    } else {
      var k' := IsPow2Log(a / 2);
      k := k' + 1;
    }
  }

  lemma {:induction false} Pow2IsPow2(k: nat)
    ensures IsPow2(Pow2(k))
  {
    if k > 0 { Pow2IsPow2(k - 1); }
  }

  /** The low `k` bits. */
  function Low(a: nat, k: nat): (r: nat) { a % Pow2(k) }

  // ---- shifts ----

  lemma {:induction false} ShlValue(a: nat, k: nat)
    ensures Shl(a, k) == a * Pow2(k)
  {
    if k > 0 {
      ShlValue(a, k - 1);
      assert 2 * (a * Pow2(k - 1)) == a * (2 * Pow2(k - 1));
    }
  }

  lemma {:induction false} ShlOne(k: nat)
    ensures Shl(1, k) == Pow2(k)
  {
    if k > 0 { ShlOne(k - 1); }
  }

  lemma {:induction false} ShrValue(a: nat, k: nat)
    ensures Shr(a, k) == a / Pow2(k)
  {
    if k > 0 {
      ShrValue(a / 2, k - 1);
      HalfQuotient(a, Pow2(k - 1));
    }
  }

  lemma HalfQuotient(a: nat, d: nat)
    requires d > 0
    ensures a / (2 * d) == (a / 2) / d
  {
    var q, r := (a / 2) / d, (a / 2) % d;
    assert a / 2 == q * d + r;
    assert a == q * (2 * d) + (2 * r + a % 2);
    DivUnique(a, 2 * d, q, 2 * r + a % 2);
  }

  // ---- masks ----

  lemma {:induction false} AndLowMask(a: nat, k: nat)
    ensures And(a, Pow2(k) - 1) == Low(a, k)
  {
    hide And, Low;
    if k == 0 {
      AndZero(a);
      LowNone(a);
    } else {
      LowStep(a, k);
      AndLowMask(a / 2, k - 1);
      AndOdd(a, Pow2(k - 1) - 1);
    }
  }

  lemma AndZero(a: nat)
    ensures And(a, 0) == 0
  {}

  lemma LowStep(a: nat, k: nat)
    requires k > 0
    ensures Low(a, k) == a % 2 + 2 * Low(a / 2, k - 1)
  {
    var d := Pow2(k - 1);
    var q, r := (a / 2) / d, (a / 2) % d;
    assert a / 2 == q * d + r;
    assert a == q * (2 * d) + (2 * r + a % 2);
    DivUnique(a, 2 * d, q, 2 * r + a % 2);
  }

  lemma LowAll(a: nat, w: nat)
    requires a < Pow2(w)
    ensures Low(a, w) == a
  {
    DivUnique(a, Pow2(w), 0, a);
  }

  /** Clearing the low `k` bits of a `w`-bit word rounds it down to a multiple of `2^k`. */
  lemma {:induction false} AndHighMask(a: nat, k: nat, w: nat)
    requires k <= w && a < Pow2(w)
    ensures Pow2(k) <= Pow2(w)
    ensures And(a, Not(w, Pow2(k) - 1)) == a - Low(a, k)
  {
    hide And, Low;
    Pow2Mono(k, w);
    if k == 0 {
      AndLowMask(a, w);
      LowAll(a, w);
      LowNone(a);
    } else {
      LowStep(a, k);
      Pow2Mono(k - 1, w - 1);
      AndHighMask(a / 2, k - 1, w - 1);
      AndEven(a, Not(w - 1, Pow2(k - 1) - 1));
    }
  }

  lemma LowNone(a: nat)
    ensures Low(a, 0) == 0
  {}

  lemma AndEven(a: nat, n: nat)
    ensures And(a, 2 * n) == 2 * And(a / 2, n)
  {
    assert (2 * n) / 2 == n && (2 * n) % 2 == 0;
  }

  lemma AndOdd(a: nat, n: nat)
    ensures And(a, 2 * n + 1) == a % 2 + 2 * And(a / 2, n)
  {
    assert (2 * n + 1) / 2 == n && (2 * n + 1) % 2 == 1;
  }

  lemma {:induction false} OrLow(p: nat, k: nat, s: nat)
    requires s < Pow2(k)
    ensures Or(Shl(p, k), s) == Shl(p, k) + s
  {
    if k > 0 {
      OrLow(p, k - 1, s / 2);
    }
  }

  // ---- single bits ----

  lemma {:induction false} AndBit(a: nat, b: nat, i: nat)
    ensures Bit(And(a, b), i) <==> Bit(a, i) && Bit(b, i)
  {
    if a == 0 || b == 0 {
      ZeroBit(i);
    } else if i > 0 {
      AndBit(a / 2, b / 2, i - 1);
    }
  }

  lemma {:induction false} OrBit(a: nat, b: nat, i: nat)
    ensures Bit(Or(a, b), i) <==> Bit(a, i) || Bit(b, i)
  {
    if a == 0 || b == 0 {
      ZeroBit(i);
    } else if i > 0 {
      OrBit(a / 2, b / 2, i - 1);
    }
  }

  lemma {:induction false} NotBit(w: nat, a: nat, i: nat)
    requires a < Pow2(w) && i < w
    ensures Bit(Not(w, a), i) <==> !Bit(a, i)
  {
    if i > 0 {
      NotBit(w - 1, a / 2, i - 1);
      assert Not(w, a) / 2 == Not(w - 1, a / 2);
    }
  }

  lemma {:induction false} ZeroBit(i: nat)
    ensures !Bit(0, i)
  {
    if i > 0 { ZeroBit(i - 1); }
  }

  lemma {:induction false} Pow2Bit(j: nat, i: nat)
    ensures Bit(Pow2(j), i) <==> i == j
  {
    if i > 0 {
      if j > 0 { Pow2Bit(j - 1, i - 1); } else { ZeroBit(i - 1); }
    }
  }

  lemma {:induction false} LowMaskBit(j: nat, i: nat)
    ensures Bit(Pow2(j) - 1, i) <==> i < j
  {
    if j == 0 {
      ZeroBit(i);
    } else if i > 0 {
      assert (Pow2(j) - 1) / 2 == Pow2(j - 1) - 1;
      LowMaskBit(j - 1, i - 1);
    }
  }

  /** `TrailingZeros` is the least set bit. */
  lemma {:induction false} TrailingZerosLeast(a: nat)
    requires a > 0
    ensures Bit(a, TrailingZeros(a))
    ensures forall i | 0 <= i < TrailingZeros(a) :: !Bit(a, i)
  {
    if a % 2 == 0 {
      TrailingZerosLeast(a / 2);
      forall i | 0 <= i < TrailingZeros(a)
        ensures !Bit(a, i)
      {
        if i > 0 { assert !Bit(a / 2, i - 1); }
      }
    }
  }

  /** A non-zero word has a set bit, and no set bit lies above its width. */
  lemma {:induction false} BitBelowWidth(a: nat, w: nat, i: nat)
    requires a < Pow2(w) && Bit(a, i)
    ensures i < w
  {
    if i > 0 {
      if w == 0 { ZeroBit(i); } else { BitBelowWidth(a / 2, w - 1, i - 1); }
    }
  }

  /** Two words are equal when all their bits are. */
  lemma {:induction false} BitsDetermine(a: nat, b: nat)
    requires forall i: nat :: Bit(a, i) == Bit(b, i)
    ensures a == b
    decreases a + b
  {
    if a != 0 || b != 0 {
      assert Bit(a, 0) == Bit(b, 0);
      forall i: nat
        ensures Bit(a / 2, i) == Bit(b / 2, i)
      {
        assert Bit(a, i + 1) == Bit(b, i + 1);
      }
      BitsDetermine(a / 2, b / 2);
    }
  }

  lemma {:induction false} AndBound(a: nat, b: nat)
    ensures And(a, b) <= a && And(a, b) <= b
  {
    if a != 0 && b != 0 { AndBound(a / 2, b / 2); }
  }

  lemma {:induction false} OrBound(a: nat, b: nat, w: nat)
    requires a < Pow2(w) && b < Pow2(w)
    ensures Or(a, b) < Pow2(w)
  {
    if a != 0 && b != 0 { OrBound(a / 2, b / 2, w - 1); }
  }
}
