/** The triangular probe sequence of src/klib/khash.h: bucket number `h + step*(step+1)/2` modulo a
    power of two. */
module Probe {
  import opened Arith

  /** The offset after `k` steps: 0, 1, 3, 6, ... */
  function Tri(k: nat): nat {
    if k == 0 then 0 else Tri(k - 1) + k
  }

  lemma {:induction false} TriTwice(k: nat)
    ensures 2 * Tri(k) == k * (k + 1)
  {
    if k == 0 {
    } else {
      TriTwice(k - 1);
      assert k * (k + 1) == (k - 1) * k + 2 * k;
    }
  }

  /** The bucket visited after `k` steps in a table of `n` buckets. */
  function At(h: nat, n: nat, k: nat): (b: nat)
    requires n > 0
    ensures b < n
  {
    (h + Tri(k)) % n
  }

  /** `i = (i + (++step)) & mask` walks the sequence. */
  lemma AtNext(h: nat, n: nat, k: nat)
    requires n > 0
    ensures At(h, n, k + 1) == (At(h, n, k) + k + 1) % n
  {
    ModStep(h + Tri(k), k + 1, n);
  }

  lemma ProductOfSum(a: int, b: int)
    ensures (a - b) * (a + b + 1) == a * (a + 1) - b * (b + 1)
  {
  }

  /** Two probes of the same bucket: the product of distance and sum is a multiple of 2n. */
  lemma MeetingProbes(h: nat, m: nat, a: nat, b: nat) returns (t: int)
    requires b < a && At(h, Pow2(m), a) == At(h, Pow2(m), b)
    ensures (a - b) * (a + b + 1) == Pow2(m + 1) * t
  {
    t := SameMod(h + Tri(a), h + Tri(b), Pow2(m));
    TriTwice(a);
    TriTwice(b);
    ProductOfSum(a, b);
    Regroup(2, Pow2(m), t);
  }

  /** Of two factors whose product is a multiple of 2n, with one odd, the other is at least 2n. */
  lemma EvenFactorIsLarge(k: nat, x: int, y: int, t: int)
    requires x * y == Pow2(k) * t && y % 2 == 1 && x > 0
    ensures x >= Pow2(k)
  {
    var u := OddFactor(k, x, y, t);
    PositiveMultiple(Pow2(k), u, x);
  }

  lemma LargerFactor(k: nat, x: int, y: int, t: int)
    requires x * y == Pow2(k) * t && 0 < x <= y && x % 2 != y % 2
    ensures y >= Pow2(k)
  {
    if y % 2 == 1 {
      EvenFactorIsLarge(k, x, y, t);
    } else {
      EvenFactorIsLarge(k, y, x, t);
    }
  }

  lemma OddSum(a: int, b: int)
    ensures (a - b) % 2 != (a + b + 1) % 2
  {
  }

  /** Two different probes meet only when the sum of their steps reaches 2n - 1. */
  lemma ProbesMeetLate(h: nat, m: nat, a: nat, b: nat)
    requires b < a && At(h, Pow2(m), a) == At(h, Pow2(m), b)
    ensures a + b + 1 >= Pow2(m + 1)
  {
    var t := MeetingProbes(h, m, a, b);
    OddSum(a, b);
    LargerFactor(m + 1, a - b, a + b + 1, t);
  }

  /** The first n probes hit n different buckets. */
  lemma ProbesDiffer(h: nat, m: nat, a: nat, b: nat)
    requires b < a < Pow2(m)
    ensures At(h, Pow2(m), a) != At(h, Pow2(m), b)
  {
    if At(h, Pow2(m), a) == At(h, Pow2(m), b) {
      ProbesMeetLate(h, m, a, b);
    }
  }

  /** The walk returns to its first bucket only after 2n - 1 steps, so after all were visited. */
  lemma ReturnsLate(h: nat, m: nat, k: nat)
    requires k > 0 && At(h, Pow2(m), k) == At(h, Pow2(m), 0)
    ensures k >= 2 * Pow2(m) - 1
  {
    ProbesMeetLate(h, m, k, 0);
  }

  /** After 2n - 1 steps the walk is back at its first bucket. */
  lemma FullCircle(h: nat, m: nat)
    ensures At(h, Pow2(m), 2 * Pow2(m) - 1) == h % Pow2(m)
  {
    var n := Pow2(m);
    var k := 2 * n - 1;
    TriTwice(k);
    assert k * (k + 1) == 2 * (n * k);
    assert Tri(k) == n * k;
    assert h + n * k == n * (h / n + k) + h % n by {
      assert n * (h / n + k) == n * (h / n) + n * k;
    }
    ModUnique(h + n * k, h / n + k, h % n, n);
  }

  ghost function Visited(h: nat, n: nat, k: nat): set<nat>
    requires n > 0
  {
    if k == 0 then {} else Visited(h, n, k - 1) + {At(h, n, k - 1)}
  }

  lemma {:induction false} VisitedHas(h: nat, n: nat, k: nat, b: nat)
    requires n > 0
    ensures b in Visited(h, n, k) <==> exists s: nat :: s < k && At(h, n, s) == b
  {
    if k == 0 {
    } else {
      VisitedHas(h, n, k - 1, b);
    }
  }

  lemma {:induction false} VisitedSize(h: nat, m: nat, k: nat)
    requires k <= Pow2(m)
    ensures |Visited(h, Pow2(m), k)| == k
  {
    if k == 0 {
    } else {
      VisitedSize(h, m, k - 1);
      var b := At(h, Pow2(m), k - 1);
      VisitedHas(h, Pow2(m), k - 1, b);
      if b in Visited(h, Pow2(m), k - 1) {
        var s: nat :| s < k - 1 && At(h, Pow2(m), s) == b;
        ProbesDiffer(h, m, k - 1, s);
      }
    }
  }

  /** Every bucket is hit by one of the first n probes. */
  lemma ProbesCover(h: nat, m: nat, b: nat) returns (s: nat)
    requires b < Pow2(m)
    ensures s < Pow2(m) && At(h, Pow2(m), s) == b
  {
    var n := Pow2(m);
    VisitedSize(h, m, n);
    forall x | x in Visited(h, n, n) ensures x < n {
      VisitedHas(h, n, n, x);
    }
    SubsetOfSameSize(Visited(h, n, n), Below(n));
    VisitedHas(h, n, n, b);
    s :| s < n && At(h, n, s) == b;
  }

  /** A 32-bit sum under a mask of at most 31 bits: the wrap-around does not show. */
  lemma WrapUnderMask(x: nat, m: nat)
    requires m <= 31
    ensures x % 0x1_0000_0000 % Pow2(m) == x % Pow2(m)
  {
    Pow2Of32();
    ModThroughLarger(x, m, 32);
  }
}
