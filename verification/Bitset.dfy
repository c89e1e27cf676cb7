/** A 64-bit voter set, one bit per committee position. */
module Bitset {

  function Pow2(n: nat): (p: nat)
    ensures p >= 1
  {
    if n == 0 then 1 else 2 * Pow2(n - 1)
  }

  /** `(b >> i) & 1 != 0` */
  predicate Bit(b: nat, i: nat) {
    if i == 0 then b % 2 == 1 else Bit(b / 2, i - 1)
  }

  /** `b | (1 << i)` */
  function SetBit(b: nat, i: nat): (r: nat) {
    if i == 0 then b / 2 * 2 + 1 else SetBit(b / 2, i - 1) * 2 + b % 2
  }

  lemma {:induction false} BitOfSetBit(b: nat, i: nat, j: nat)
    ensures Bit(SetBit(b, i), j) <==> i == j || Bit(b, j)
  {
    if i > 0 && j > 0 {
      BitOfSetBit(b / 2, i - 1, j - 1);
    }
  }

  lemma {:induction false} SetBitBound(b: nat, i: nat, n: nat)
    requires i < n && b < Pow2(n)
    ensures SetBit(b, i) < Pow2(n)
  {
    var half := Pow2(n - 1);
    assert Pow2(n) == 2 * half && b / 2 < half;
    if i > 0 {
      SetBitBound(b / 2, i - 1, n - 1);
      assert SetBit(b / 2, i - 1) < half;
    }
  }

  /** A number below 2^n is determined by its first n bits. */
  lemma {:induction false} Extensional(a: nat, b: nat, n: nat)
    requires a < Pow2(n) && b < Pow2(n)
    requires forall i | 0 <= i < n :: Bit(a, i) == Bit(b, i)
    ensures a == b
  {
    if n > 0 {
      assert Bit(a, 0) == Bit(b, 0);
      forall i | 0 <= i < n - 1 ensures Bit(a / 2, i) == Bit(b / 2, i) {
        assert Bit(a, i + 1) == Bit(b, i + 1);
      }
      Extensional(a / 2, b / 2, n - 1);
    }
  }

  lemma {:induction false} ZeroBit(i: nat)
    ensures !Bit(0, i)
  {
    if i > 0 { ZeroBit(i - 1); }
  }

  lemma {:induction false} Pow2Monotone(m: nat, n: nat)
    requires m <= n
    ensures Pow2(m) <= Pow2(n)
    decreases n - m
  {
    if m < n { Pow2Monotone(m + 1, n); }
  }

  // ------------------------------------------------------- b mod 2^n

  lemma DivModUnique(x: nat, m: nat, q: nat, r: nat)
    requires x == m * q + r && r < m
    ensures x / m == q && x % m == r
  {
    var q', r' := x / m, x % m;
    assert x == m * q' + r';
    assert m * (q' - q) == m * q' - m * q;
    assert m * (q - q') == m * q - m * q';
    if q < q' {
      MulGe(m, q' - q);
    } else if q' < q {
      MulGe(m, q - q');
    }
  }

  lemma MulGe(m: nat, k: nat)
    requires k >= 1
    ensures m * k >= m
  {
    assert m * k == m + m * (k - 1);
  }

  lemma HalveMod(b: nat, m: nat)
    requires m >= 1
    ensures b % (2 * m) == b % 2 + 2 * ((b / 2) % m)
  {
    var q, r := (b / 2) / m, (b / 2) % m;
    assert b / 2 == m * q + r;
    assert b == (2 * m) * q + (2 * r + b % 2);
    DivModUnique(b, 2 * m, q, 2 * r + b % 2);
  }

  lemma {:induction false} BitOfMod(b: nat, n: nat, i: nat)
    requires i < n
    ensures Bit(b % Pow2(n), i) == Bit(b, i)
  {
    var half := Pow2(n - 1);
    HalveMod(b, half);
    var r := b % Pow2(n);
    assert r % 2 == b % 2 && r / 2 == (b / 2) % half;
    if i > 0 {
      BitOfMod(b / 2, n - 1, i - 1);
    }
  }
}
