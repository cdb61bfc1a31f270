/** The probe sequence `j -> 5j + 1 (mod 2^k)` of the identifier table: one cycle through all cells. */
module Probe {
  import opened Bits

  /** ID_NEXT: the cell probed after cell `j`. */
  function Next(cap: nat, j: nat): nat
    requires cap >= 1
  {
    And(j * 5 + 1, cap - 1)
  }

  /** ID_INDEX: the home cell of an identifier. */
  function Home(cap: nat, id: nat): nat
    requires cap >= 1
  {
    And(id, cap - 1)
  }

  /** The cell reached from `start` after `n` probes. */
  ghost function Walk(cap: nat, start: nat, n: nat): nat
    requires cap >= 1
  {
    if n == 0 then start else Next(cap, Walk(cap, start, n - 1))
  }

  lemma NextInRange(cap: nat, j: nat)
    requires IsPow2(cap)
    ensures Next(cap, j) == (j * 5 + 1) % cap && Next(cap, j) < cap
  {
    MaskIsMod(j * 5 + 1, cap);
  }

  lemma HomeInRange(cap: nat, id: nat)
    requires IsPow2(cap)
    ensures Home(cap, id) == id % cap && Home(cap, id) < cap
  {
    MaskIsMod(id, cap);
  }

  lemma {:induction false} WalkInRange(cap: nat, start: nat, n: nat)
    requires IsPow2(cap) && start < cap
    ensures Walk(cap, start, n) < cap
  {
    if n > 0 { NextInRange(cap, Walk(cap, start, n - 1)); }
  }

  lemma {:induction false} WalkCompose(cap: nat, start: nat, a: nat, b: nat)
    requires cap >= 1
    ensures Walk(cap, Walk(cap, start, a), b) == Walk(cap, start, a + b)
  {
    if b > 0 { WalkCompose(cap, start, a, b - 1); }
  }

  // ---- arithmetic of the iterated affine map ----

  /** 1 + 5 + ... + 5^(n-1) */
  ghost function Geo(n: nat): nat {
    if n == 0 then 0 else 5 * Geo(n - 1) + 1
  }

  ghost function Pow5(n: nat): nat {
    if n == 0 then 1 else 5 * Pow5(n - 1)
  }

  /** 2^k divides a, digit by digit. */
  ghost predicate Div2(k: nat, a: nat) {
    k == 0 || (a % 2 == 0 && Div2(k - 1, a / 2))
  }

  lemma {:induction false} Div2IsMod(k: nat, a: nat)
    ensures Div2(k, a) <==> a % Pow2(k) == 0
  {
    if k > 0 {
      Div2IsMod(k - 1, a / 2);
      HalfMod(a, Pow2(k - 1));
    }
  }

  /** An odd factor contributes no power of two. */
  lemma {:induction false} OddFactor(k: nat, p: nat, a: nat, h: nat)
    requires p == a * (2 * h + 1) && Div2(k, p)
    ensures Div2(k, a)
  {
    if k > 0 {
      OddSplits(a, h);
      OddSplits(a / 2, h);
      DoubleProduct(a, h);
      OddFactor(k - 1, p / 2, a / 2, h);
    }
  }

  lemma OddSplits(a: nat, h: nat)
    ensures a * (2 * h + 1) == 2 * (a * h) + a
  {
    assert a * (2 * h) == 2 * (a * h);
  }

  lemma DoubleProduct(a: nat, h: nat)
    ensures a % 2 == 0 ==> a * h == 2 * (a / 2 * h)
  {
    if a % 2 == 0 {
      var b := a / 2;
      assert a == 2 * b;
      assert (2 * b) * h == 2 * (b * h);
    }
  }

  lemma {:induction false} GeoDouble(n: nat, m: nat)
    ensures Geo(n + m) == Geo(n) * Pow5(m) + Geo(m)
  {
    if m > 0 {
      GeoDouble(n, m - 1);
      var g, p := Geo(n), Pow5(m - 1);
      assert Geo(n + m) == 5 * (g * p + Geo(m - 1)) + 1;
      assert 5 * (g * p) == g * (5 * p);
    } else {
      assert Geo(n) * 1 == Geo(n);
    }
  }

  lemma {:induction false} Pow5Form(n: nat) returns (h: nat)
    ensures Pow5(n) == 4 * h + 1
  {
    if n == 0 {
      h := 0;
    } else {
      h := Pow5Form(n - 1);
      h := 5 * h + 1;
    }
  }

  lemma {:induction false} GeoParity(n: nat)
    ensures Geo(n) % 2 == n % 2
  {
    if n > 0 {
      GeoParity(n - 1);
      var g := Geo(n - 1);
      assert Geo(n) == 2 * (2 * g) + (g + 1);
    }
  }

  lemma GeoEven(m: nat) returns (h: nat)
    ensures Geo(m + m) == 2 * (Geo(m) * (2 * h + 1))
  {
    h := Pow5Form(m);
    GeoDouble(m, m);
    Factor(Geo(m), Pow5(m), h);
  }

  lemma Factor(g: nat, p: nat, h: nat)
    requires p == 4 * h + 1
    ensures g * p + g == 2 * (g * (2 * h + 1))
  {
    assert g * (4 * h + 1) == 4 * (g * h) + g;
    assert g * (2 * h + 1) == 2 * (g * h) + g;
  }

  lemma Div2Double(k: nat, t: nat)
    requires k > 0 && Div2(k, 2 * t)
    ensures Div2(k - 1, t)
  {
    assert (2 * t) / 2 == t;
  }

  lemma HalfStep(k: nat, t: nat, g: nat, h: nat)
    requires k > 0 && t == 2 * (g * (2 * h + 1)) && Div2(k, t)
    ensures Div2(k - 1, g)
  {
    Div2Double(k, g * (2 * h + 1));
    OddFactor(k - 1, g * (2 * h + 1), g, h);
  }

  lemma GeoHalf(k: nat, m: nat)
    requires k > 0 && Div2(k, Geo(m + m))
    ensures Div2(k - 1, Geo(m))
  {
    var h := GeoEven(m);
    HalfStep(k, Geo(m + m), Geo(m), h);
  }

  /** 2^k divides 1 + 5 + ... + 5^(n-1) only if it divides n. */
  lemma {:induction false} GeoDivides(k: nat, n: nat)
    requires Div2(k, Geo(n))
    ensures Div2(k, n)
  {
    if k > 0 {
      GeoParity(n);
      var m := n / 2;
      assert n == m + m;
      GeoHalf(k, m);
      GeoDivides(k - 1, m);
    }
  }

  /** The unreduced iterate. */
  ghost function Raw(x: nat, n: nat): nat {
    if n == 0 then x else Raw(x, n - 1) * 5 + 1
  }

  lemma {:induction false} RawClosed(x: nat, n: nat) returns (p: nat)
    ensures p == Geo(n) * (2 * (2 * x) + 1) && Raw(x, n) == x + p
  {
    p := Geo(n) * (2 * (2 * x) + 1);
    if n == 0 {
      assert 0 * (2 * (2 * x) + 1) == 0;
    } else {
      var p0 := RawClosed(x, n - 1);
      var g, y := Geo(n - 1), 2 * (2 * x) + 1;
      assert (5 * g + 1) * y == 5 * (g * y) + y;
    }
  }

  lemma ModAbsorb(x: nat, r: nat, m: nat)
    requires m >= 1 && r == x % m
    ensures (r * 5 + 1) % m == (x * 5 + 1) % m
  {
    var q := x / m;
    var y := r * 5 + 1;
    var q2, r2 := y / m, y % m;
    assert x == q * m + r && y == q2 * m + r2;
    assert (5 * q + q2) * m == 5 * (q * m) + q2 * m;
    MulModBase(5 * q + q2, r2, m);
  }

  lemma MaskAbsorb(cap: nat, x: nat)
    requires IsPow2(cap)
    ensures Next(cap, And(x, cap - 1)) == And(x * 5 + 1, cap - 1)
  {
    var r := And(x, cap - 1);
    MaskIsMod(x, cap);
    MaskIsMod(x * 5 + 1, cap);
    MaskIsMod(r * 5 + 1, cap);
    ModAbsorb(x, r, cap);
  }

  lemma MaskSmall(cap: nat, x: nat)
    requires IsPow2(cap) && x < cap
    ensures And(x, cap - 1) == x
  {
    MaskIsMod(x, cap);
    SmallMod(x, cap);
  }

  lemma {:induction false} WalkIsRaw(cap: nat, start: nat, n: nat)
    requires IsPow2(cap) && start < cap
    ensures Walk(cap, start, n) == And(Raw(start, n), cap - 1)
  {
    if n == 0 {
      MaskSmall(cap, start);
    } else {
      WalkIsRaw(cap, start, n - 1);
      MaskAbsorb(cap, Raw(start, n - 1));
    }
  }

  lemma AddKeepsMod(x: nat, p: nat, m: nat)
    requires m >= 1 && x < m && (x + p) % m == x
    ensures p % m == 0
  {
    var q := (x + p) / m;
    assert p == q * m + 0;
    MulModBase(q, 0, m);
  }

  lemma MaskKeeps(k: nat, x: nat, p: nat)
    requires x < Pow2(k) && And(x + p, Pow2(k) - 1) == x
    ensures Div2(k, p)
  {
    LowMask(x + p, k);
    AddKeepsMod(x, p, Pow2(k));
    Div2IsMod(k, p);
  }

  lemma SmallNotDivisible(k: nat, n: nat)
    requires 0 < n < Pow2(k)
    ensures !Div2(k, n)
  {
    Div2IsMod(k, n);
    SmallMod(n, Pow2(k));
  }

  lemma ProductDivides(k: nat, x: nat, n: nat, p: nat)
    requires p == Geo(n) * (2 * (2 * x) + 1) && Div2(k, p)
    ensures Div2(k, n)
  {
    OddFactor(k, p, Geo(n), 2 * x);
    GeoDivides(k, n);
  }

  /** The walk does not come back to its start in fewer than `cap` steps. */
  lemma NoEarlyReturn(cap: nat, start: nat, n: nat)
    requires IsPow2(cap) && start < cap && 0 < n < cap
    ensures Walk(cap, start, n) != start
  {
    if Walk(cap, start, n) == start {
      var k: nat :| cap == Pow2(k);
      WalkIsRaw(cap, start, n);
      var p := RawClosed(start, n);
      MaskKeeps(k, start, p);
      ProductDivides(k, start, n, p);
      SmallNotDivisible(k, n);
      assert false;
    }
  }

  lemma WalkInjective(cap: nat, start: nat, a: nat, b: nat)
    requires IsPow2(cap) && start < cap && a < b < cap
    ensures Walk(cap, start, a) != Walk(cap, start, b)
  {
    WalkInRange(cap, start, a);
    WalkCompose(cap, start, a, b - a);
    NoEarlyReturn(cap, Walk(cap, start, a), b - a);
  }

  // ---- from injective to onto ----

  ghost function Upto(n: nat): (s: set<nat>)
    ensures |s| == n
    ensures forall i: nat :: i in s <==> i < n
  {
    if n == 0 then {} else Upto(n - 1) + {n - 1}
  }

  lemma SubsetSize<T>(a: set<T>, b: set<T>)
    requires a <= b
    ensures |a| <= |b| && (|a| == |b| ==> a == b)
  {
    var d := b - a;
    assert b == a + d && a !! d;
    if |a| == |b| { assert d == {}; }
  }

  ghost function Visited(cap: nat, start: nat, n: nat): (s: set<nat>)
    requires cap >= 1
  {
    if n == 0 then {} else Visited(cap, start, n - 1) + {Walk(cap, start, n - 1)}
  }

  lemma {:induction false} VisitedAt(cap: nat, start: nat, n: nat, c: nat) returns (i: nat)
    requires cap >= 1 && c in Visited(cap, start, n)
    ensures i < n && Walk(cap, start, i) == c
  {
    if c == Walk(cap, start, n - 1) {
      i := n - 1;
    } else {
      i := VisitedAt(cap, start, n - 1, c);
    }
  }

  lemma {:induction false} VisitedSize(cap: nat, start: nat, n: nat)
    requires IsPow2(cap) && start < cap && n <= cap
    ensures |Visited(cap, start, n)| == n
    ensures forall c :: c in Visited(cap, start, n) ==> c < cap
  {
    if n > 0 {
      VisitedSize(cap, start, n - 1);
      var c := Walk(cap, start, n - 1);
      WalkInRange(cap, start, n - 1);
      if c in Visited(cap, start, n - 1) {
        var i := VisitedAt(cap, start, n - 1, c);
        WalkInjective(cap, start, i, n - 1);
        assert false;
      }
    }
  }

  ghost predicate Reaches(cap: nat, start: nat, c: nat)
    requires cap >= 1
  {
    exists n: nat :: n < cap && Walk(cap, start, n) == c
  }

  lemma ReachesAll(cap: nat, start: nat, c: nat)
    requires IsPow2(cap) && start < cap && c < cap
    ensures Reaches(cap, start, c)
  {
    VisitedSize(cap, start, cap);
    SubsetSize(Visited(cap, start, cap), Upto(cap));
    var n := VisitedAt(cap, start, cap, c);
  }

  lemma ReturnsHome(cap: nat, start: nat)
    requires IsPow2(cap) && start < cap
    ensures Walk(cap, start, cap) == start
  {
    WalkInRange(cap, start, cap);
    ReachesAll(cap, start, Walk(cap, start, cap));
    var n: nat :| n < cap && Walk(cap, start, n) == Walk(cap, start, cap);
    if n > 0 {
      // cells 1 .. cap of this walk are the first cap cells of the walk from cell 1
      WalkInRange(cap, start, 1);
      WalkCompose(cap, start, 1, n - 1);
      WalkCompose(cap, start, 1, cap - 1);
      WalkInjective(cap, Walk(cap, start, 1), n - 1, cap - 1);
      assert false;
    }
  }

  /** The probe reaches every cell, each exactly once in `cap` steps, and is then back home. */
  lemma FullCycle(cap: nat, start: nat)
    requires IsPow2(cap) && start < cap
    ensures forall c: nat :: c < cap ==> Reaches(cap, start, c)
    ensures forall a: nat, b: nat :: a < b < cap ==> Walk(cap, start, a) != Walk(cap, start, b)
    ensures Walk(cap, start, cap) == start
  {
    forall c: nat | c < cap ensures Reaches(cap, start, c) {
      ReachesAll(cap, start, c);
    }
    forall a: nat, b: nat | a < b < cap ensures Walk(cap, start, a) != Walk(cap, start, b) {
      WalkInjective(cap, start, a, b);
    }
    ReturnsHome(cap, start);
  }

  /** How many probes lead from cell `a` to cell `b`. */
  ghost function Dist(cap: nat, a: nat, b: nat): (n: nat)
    requires IsPow2(cap) && a < cap && b < cap
    ensures n < cap && Walk(cap, a, n) == b
  {
    ReachesAll(cap, a, b);
    var n: nat :| n < cap && Walk(cap, a, n) == b;
    n
  }

  lemma DistOfWalk(cap: nat, a: nat, n: nat)
    requires IsPow2(cap) && a < cap && n < cap
    ensures Walk(cap, a, n) < cap && Dist(cap, a, Walk(cap, a, n)) == n
  {
    WalkInRange(cap, a, n);
    var d := Dist(cap, a, Walk(cap, a, n));
    if d < n { WalkInjective(cap, a, d, n); }
    if n < d { WalkInjective(cap, a, n, d); }
  }
}
