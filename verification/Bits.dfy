/** Bitwise `&` on natural numbers and powers of two, as the C sources use them. */
module Bits {

  function Pow2(k: nat): (p: nat)
    ensures p >= 1
  {
    if k == 0 then 1 else 2 * Pow2(k - 1)
  }

  ghost predicate IsPow2(n: nat) {
    exists k: nat :: n == Pow2(k)
  }

  /** The bitwise conjunction of two naturals, one binary digit at a time. */
  function And(x: nat, y: nat): nat
    decreases x
  {
    if x == 0 || y == 0 then 0 else 2 * And(x / 2, y / 2) + (if x % 2 == 1 && y % 2 == 1 then 1 else 0)
  }

  lemma MulAtLeast(a: int, m: nat)
    requires a >= 1
    ensures a * m >= m
  {
  }

  lemma MulModBase(q: int, r: int, m: nat)
    requires m >= 1 && 0 <= r < m
    ensures (q * m + r) % m == r && (q * m + r) / m == q
  {
    var x := q * m + r;
    var q', r' := x / m, x % m;
    assert x == q' * m + r';
    var d := q - q';
    assert d * m == r' - r by { assert d * m == q * m - q' * m; }
    if d >= 1 {
      MulAtLeast(d, m);
      assert false;
    } else if d <= -1 {
      assert (-d) * m == -(d * m);
      MulAtLeast(-d, m);
      assert false;
    }
  }

  lemma SmallMod(r: nat, m: nat)
    requires r < m
    ensures r % m == r
  {
    MulModBase(0, r, m);
  }

  /** The remainder modulo 2m, from the remainder of the half modulo m. */
  lemma HalfMod(a: nat, m: nat)
    requires m >= 1
    ensures a % (2 * m) == 2 * ((a / 2) % m) + a % 2
  {
    var q, r := (a / 2) / m, (a / 2) % m;
    var t := 2 * r + a % 2;
    assert a / 2 == q * m + r;
    assert q * (2 * m) == 2 * (q * m);
    MulModBase(q, t, 2 * m);
  }

  /** `&` with an odd mask: the lowest digit stays, the rest is `&` of the halves. */
  lemma AndOdd(x: nat, m: nat)
    requires m >= 1
    ensures And(x, 2 * m - 1) == 2 * And(x / 2, m - 1) + x % 2
  {
    var y := 2 * m - 1;
    assert y / 2 == m - 1 && y % 2 == 1;
  }

  lemma Pow2Doubles(k: nat)
    ensures Pow2(k) == if k == 0 then 1 else 2 * Pow2(k - 1)
  {
  }

  /** Masking with 2^k - 1 keeps the remainder modulo 2^k. */
  lemma {:induction false} LowMask(x: nat, k: nat)
    ensures And(x, Pow2(k) - 1) == x % Pow2(k)
  {
    hide And, Pow2;
    Pow2Doubles(k);
    if k == 0 {
      AndNone(x);
      assert x % 1 == 0;
    } else {
      var m := Pow2(k - 1);
      AndOdd(x, m);
      LowMask(x / 2, k - 1);
      HalfMod(x, m);
    }
  }

  lemma AndNone(x: nat)
    ensures And(x, 0) == 0
  {
  }

  lemma MaskIsMod(x: nat, cap: nat)
    requires IsPow2(cap)
    ensures And(x, cap - 1) == x % cap
  {
    var k: nat :| cap == Pow2(k);
    LowMask(x, k);
  }
}
