/** Powers of two, remainders, and sizes of sets. */
module Arith {

  function Pow2(m: nat): (r: nat)
    ensures r >= 1
  {
    if m == 0 then 1 else 2 * Pow2(m - 1)
  }

  lemma {:induction false} Pow2Grows(m: nat)
    ensures m < Pow2(m)
  {
    if m == 0 {
    } else {
      Pow2Grows(m - 1);
    }
  }

  lemma {:induction false} Pow2Monotone(a: nat, b: nat)
    requires a <= b
    ensures Pow2(a) <= Pow2(b)
    decreases b - a
  {
    if a == b {
    } else {
      Pow2Monotone(a, b - 1);
    }
  }

  lemma {:induction false} Pow2Sum(a: nat, b: nat)
    ensures Pow2(a + b) == Pow2(a) * Pow2(b)
  {
    if b == 0 {
    } else {
      Pow2Sum(a, b - 1);
      assert Pow2(a) * Pow2(b) == 2 * (Pow2(a) * Pow2(b - 1));
    }
  }

  lemma Pow2Of32()
    ensures Pow2(31) == 0x8000_0000 && Pow2(32) == 0x1_0000_0000
  {
    assert Pow2(8) == 256;
    Pow2Sum(8, 8);
    Pow2Sum(16, 8);
    Pow2Sum(24, 7);
    assert Pow2(7) == 128;
  }

  lemma EvenPlus(z: int, x: int)
    ensures (2 * z + x) % 2 == x % 2
  {
  }

  lemma OddTimesOdd(x: int, y: int)
    requires x % 2 == 1 && y % 2 == 1
    ensures (x * y) % 2 == 1
  {
    var b := y / 2;
    assert x * y == 2 * (x * b) + x by {
      assert y == 2 * b + 1;
      assert x * (2 * b + 1) == x * (2 * b) + x;
    }
    EvenPlus(x * b, x);
  }

  /** A power of two that divides `x * y` with `y` odd divides `x`; `u` is the quotient. */
  lemma {:induction false} OddFactor(k: nat, x: int, y: int, t: int) returns (u: int)
    requires x * y == Pow2(k) * t && y % 2 == 1
    ensures x == Pow2(k) * u
  {
    if k == 0 {
      u := x;
    } else {
      var p := Pow2(k - 1);
      assert x * y == 2 * (p * t) by {
        assert Pow2(k) * t == 2 * p * t;
      }
      if x % 2 == 1 {
        OddTimesOdd(x, y);
        assert false;
      }
      var half := x / 2;
      assert half * y == p * t by {
        assert x == 2 * half;
        assert 2 * (half * y) == x * y;
      }
      u := OddFactor(k - 1, half, y, t);
    }
  }

  lemma MulSigns(n: nat, u: int)
    ensures u <= 0 ==> n * u <= 0
    ensures u >= 1 ==> n * u >= n
  {
  }

  /** A positive multiple of `n` is at least `n`. */
  lemma PositiveMultiple(n: nat, u: int, x: int)
    requires x == n * u && 0 < x
    ensures n <= x
  {
  }

  /** Quotient and remainder are unique. */
  lemma ModUnique(x: int, q: int, r: int, n: nat)
    requires x == n * q + r && 0 <= r < n
    ensures x % n == r
  {
    var d := q - x / n;
    assert n * d == n * q - n * (x / n);
    assert n * d == x % n - r;
    MulSigns(n, d);
    MulSigns(n, -d);
    assert n * -d == -(n * d);
  }

  lemma ModStep(a: int, d: int, n: nat)
    requires n > 0
    ensures (a % n + d) % n == (a + d) % n
  {
    var b := a % n + d;
    assert n * (a / n + b / n) == n * (a / n) + n * (b / n);
    ModUnique(a + d, a / n + b / n, b % n, n);
  }

  lemma SameMod(a: int, b: int, n: nat) returns (t: int)
    requires n > 0 && a % n == b % n
    ensures a - b == n * t
  {
    t := a / n - b / n;
    assert a == n * (a / n) + a % n && b == n * (b / n) + b % n;
    assert n * t == n * (a / n) - n * (b / n);
  }

  lemma Distribute(n: int, a: int, b: int)
    ensures n * (a + b) == n * a + n * b
  {
  }

  lemma Regroup(n: int, k: int, q: int)
    ensures n * k * q == n * (k * q)
  {
  }

  lemma ModOfMultiple(x: nat, n: nat, k: nat, big: nat)
    requires n > 0 && k > 0 && big == n * k && big > 0
    ensures x % big % n == x % n
  {
    var q, r := x / big, x % big;
    Regroup(n, k, q);
    Distribute(n, k * q, r / n);
    ModUnique(x, k * q + r / n, r % n, n);
  }

  /** Reducing modulo a larger power of two first changes nothing. */
  lemma ModThroughLarger(x: nat, m: nat, w: nat)
    requires m <= w
    ensures x % Pow2(w) % Pow2(m) == x % Pow2(m)
  {
    Pow2Sum(m, w - m);
    ModOfMultiple(x, Pow2(m), Pow2(w - m), Pow2(w));
  }

  function Below(n: nat): (r: set<nat>)
    ensures |r| == n
    ensures forall b: nat :: b in r <==> b < n
  {
    if n == 0 then {} else Below(n - 1) + {n - 1}
  }

  lemma {:induction false} SubsetSize(a: set<nat>, b: set<nat>)
    requires a <= b
    ensures |a| <= |b|
  {
    if a == {} {
    } else {
      var x :| x in a;
      SubsetSize(a - {x}, b - {x});
    }
  }

  lemma SubsetOfSameSize(a: set<nat>, b: set<nat>)
    requires a <= b && |a| == |b|
    ensures a == b
  {
    if a != b {
      var x :| x in b && x !in a;
      assert a <= b - {x};
      SubsetSize(a, b - {x});
    }
  }
}
