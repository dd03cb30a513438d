/** Unsigned bit arithmetic used by the hash table: masking and shifting by powers of two. */
module Bits {

  function Pow2(k: nat): (r: nat)
    ensures r >= 1
  {
    if k == 0 then 1 else 2 * Pow2(k - 1)
  }

  /** Bitwise AND of two unsigned numbers, bit by bit. */
  function And(x: nat, y: nat): nat {
    if x == 0 || y == 0 then 0
    else 2 * And(x / 2, y / 2) + (if x % 2 == 1 && y % 2 == 1 then 1 else 0)
  }

  /** Logical right shift. */
  function ShiftRight(x: nat, k: nat): nat {
    if k == 0 then x else ShiftRight(x / 2, k - 1)
  }

  lemma MulAtLeast(d: int, k: int)
    requires 0 < d && 1 <= k
    ensures d <= d * k
  {
  }

  /** Quotient and remainder are determined by x == d * q + r with 0 <= r < d. */
  lemma DivModUnique(x: int, d: int, q: int, r: int)
    requires 0 < d && 0 <= r < d && x == d * q + r
    ensures x / d == q && x % d == r
  {
    var q', r' := x / d, x % d;
    DivModSame(d, q, r, q', r');
  }

  lemma DivModSame(d: int, q: int, r: int, q': int, r': int)
    requires 0 < d && 0 <= r < d && 0 <= r' < d && d * q + r == d * q' + r'
    ensures q == q' && r == r'
  {
    var k := q - q';
    assert d * k == d * q - d * q';
    if k >= 1 {
      MulAtLeast(d, k);
    } else if k <= -1 {
      MulAtLeast(d, -k);
    }
  }

  /** Dividing by 2d is halving and then dividing by d. */
  lemma HalveThenDivide(x: nat, d: nat)
    requires d >= 1
    ensures x / (2 * d) == (x / 2) / d
    ensures x % (2 * d) == 2 * ((x / 2) % d) + x % 2
  {
    var h := x / 2;
    var q := h / d;
    var r := h % d;
    assert h == d * q + r;
    assert x == (2 * d) * q + (2 * r + x % 2);
    DivModUnique(x, 2 * d, q, 2 * r + x % 2);
  }

  /** A residue modulo 2d refines the residue modulo d: it is that residue or that residue plus d. */
  lemma ModDouble(x: nat, d: nat)
    requires d >= 1
    ensures (x % (2 * d)) % d == x % d
    ensures x % (2 * d) == x % d || x % (2 * d) == x % d + d
  {
    var q := x / d;
    var r := x % d;
    assert x == d * q + r;
    var s := if q % 2 == 0 then r else d + r;
    assert x == (2 * d) * (q / 2) + s by {
      assert q == 2 * (q / 2) + q % 2;
      assert d * q == d * (2 * (q / 2)) + d * (q % 2);
    }
    DivModUnique(x, 2 * d, q / 2, s);
    DivModUnique(s, d, if q % 2 == 0 then 0 else 1, r);
  }

  lemma {:induction false} AndOdd(x: nat, y: nat)
    requires x > 0
    ensures And(x, 2 * y + 1) == 2 * And(x / 2, y) + x % 2
  {
    assert (2 * y + 1) / 2 == y && (2 * y + 1) % 2 == 1;
  }

  /** The k low-order bits of x. */
  function LowBits(x: nat, k: nat): nat {
    if k == 0 then 0 else 2 * LowBits(x / 2, k - 1) + x % 2
  }

  lemma {:induction false} LowBitsZero(k: nat)
    ensures LowBits(0, k) == 0
  {
    if k > 0 {
      LowBitsZero(k - 1);
    }
  }

  lemma {:induction false} MaskIsLowBits(x: nat, k: nat)
    ensures And(x, Pow2(k) - 1) == LowBits(x, k)
  {
    if x == 0 {
      LowBitsZero(k);
    } else if k > 0 {
      MaskIsLowBits(x / 2, k - 1);
      AndOdd(x, Pow2(k - 1) - 1);
      assert 2 * (Pow2(k - 1) - 1) + 1 == Pow2(k) - 1;
    }
  }

  lemma {:induction false} LowBitsIsMod(x: nat, k: nat)
    ensures LowBits(x, k) == x % Pow2(k)
  {
    if k > 0 {
      LowBitsIsMod(x / 2, k - 1);
      HalveThenDivide(x, Pow2(k - 1));
    }
  }

  /** Masking with 2^k - 1 is the remainder modulo 2^k. */
  lemma MaskIsMod(x: nat, k: nat)
    ensures And(x, Pow2(k) - 1) == x % Pow2(k)
  {
    MaskIsLowBits(x, k);
    LowBitsIsMod(x, k);
  }

  /** Shifting right by k is the quotient by 2^k. */
  lemma {:induction false} ShiftIsDiv(x: nat, k: nat)
    ensures ShiftRight(x, k) == x / Pow2(k)
  {
    if k > 0 {
      ShiftIsDiv(x / 2, k - 1);
      HalveThenDivide(x, Pow2(k - 1));
    }
  }

  lemma CeilOfDivMod(n: nat, b: nat)
    requires b >= 1
    ensures n / b + (if n % b != 0 then 1 else 0) == (n + b - 1) / b
  {
    var q, r := n / b, n % b;
    if r == 0 {
      DivModUnique(n + b - 1, b, q, b - 1);
    } else {
      assert b * (q + 1) == b * q + b;
      DivModUnique(n + b - 1, b, q + 1, r - 1);
    }
  }

  /** The shift-and-mask idiom rounds the quotient up. */
  lemma {:induction false} CeilDiv(n: nat, k: nat)
    ensures ShiftRight(n, k) + (if And(n, Pow2(k) - 1) != 0 then 1 else 0) == (n + Pow2(k) - 1) / Pow2(k)
  {
    MaskIsMod(n, k);
    ShiftIsDiv(n, k);
    CeilOfDivMod(n, Pow2(k));
  }
}
