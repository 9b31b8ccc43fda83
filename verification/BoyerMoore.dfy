/** The Boyer-Moore search of src/klib/kstring.c: its three tables, and the search itself. */
module BoyerMoore {
  import opened Basics

  /* ---------- What the tables mean ---------- */

  /** The last `k` bytes of pat[..i + 1] are the last `k` bytes of `pat`. */
  ghost predicate Matches(pat: seq<Byte>, i: int, k: int) {
    && -1 <= i < |pat| && 0 <= k <= i + 1
    && forall t :: i - k < t <= i ==> pat[t] == pat[t + (|pat| - 1 - i)]
  }

  /** `k` is the length of the longest common suffix of pat[..i + 1] and `pat`. */
  ghost predicate IsSuff(pat: seq<Byte>, i: int, k: int) {
    0 <= i < |pat| && Matches(pat, i, k) && (k <= i ==> pat[i - k] != pat[|pat| - 1 - k])
  }

  /** After a mismatch at `i`, the pattern moved by `s` agrees with the text read so far: with the
      part that matched, and it puts another byte at the mismatch. */
  ghost predicate Consistent(pat: seq<Byte>, i: int, s: int) {
    && 0 <= i < |pat| && 1 <= s
    && (forall t :: i < t < |pat| && s <= t ==> pat[t - s] == pat[t])
    && (s <= i ==> pat[i - s] != pat[i])
  }

  /** `v` is the least shift consistent with a mismatch at `i`. */
  ghost predicate IsGoodShift(pat: seq<Byte>, i: int, v: int) {
    Consistent(pat, i, v) && v <= |pat| && forall s :: 1 <= s < v ==> !Consistent(pat, i, s)
  }

  /** `v` is the distance of the last `c` from the end of `pat`, not counting the last byte; the
      length of `pat` when there is none. */
  ghost predicate IsBadChar(pat: seq<Byte>, c: Byte, v: int) {
    && 1 <= v <= |pat|
    && (v < |pat| ==> pat[|pat| - 1 - v] == c)
    && forall i :: |pat| - v <= i < |pat| - 1 ==> pat[i] != c
  }

  ghost predicate OccursAt(str: seq<Byte>, pat: seq<Byte>, j: int) {
    0 <= j <= |str| - |pat| && str[j..j + |pat|] == pat
  }

  /* ---------- Suffixes ---------- */

  /** The table entry is what its name says: a common suffix, and none is longer. */
  lemma SuffIsLongest(pat: seq<Byte>, i: int, k: int, k': int)
    requires IsSuff(pat, i, k) && k <= k' <= i + 1
    ensures pat[i + 1 - k..i + 1] == pat[|pat| - k..]
    ensures pat[i + 1 - k'..i + 1] == pat[|pat| - k'..] ==> k' == k
  {
  }

  /** Inside the window that matched at `f`, a shorter suffix is copied from its mirror image. */
  lemma SuffCopied(pat: seq<Byte>, f: int, g: int, i: int, k: int)
    requires 0 <= i < f < |pat| && -1 <= g < i && Matches(pat, f, f - g)
    requires IsSuff(pat, i + |pat| - 1 - f, k) && k < i - g
    ensures IsSuff(pat, i, k)
  {
    var d := |pat| - 1 - f;
    forall t | i - k < t <= i ensures pat[t] == pat[t + (|pat| - 1 - i)] {
      assert pat[t] == pat[t + d];
      assert pat[t + d] == pat[t + d + (|pat| - 1 - (i + d))];
    }
    assert pat[i - k] == pat[i - k + d];
  }

  /** A longer one covers the whole window. */
  lemma SuffExtends(pat: seq<Byte>, f: int, g: int, i: int, k: int)
    requires 0 <= i < f < |pat| && -1 <= g < i && Matches(pat, f, f - g)
    requires IsSuff(pat, i + |pat| - 1 - f, k) && k >= i - g
    ensures Matches(pat, i, i - g)
  {
    var d := |pat| - 1 - f;
    forall t | g < t <= i ensures pat[t] == pat[t + (|pat| - 1 - i)] {
      assert pat[t] == pat[t + d];
      assert pat[t + d] == pat[t + d + (|pat| - 1 - (i + d))];
    }
  }

  /** Its inner loop: the match that ends at `f` is extended to the left. */
  method Extend(pat: seq<Byte>, f: int, g0: int) returns (g: int)
    requires 0 <= f < |pat| && -1 <= g0 <= f && Matches(pat, f, f - g0)
    ensures -1 <= g <= f && IsSuff(pat, f, f - g)
  {
    g := g0;
    while g >= 0 && pat[g] == pat[g + |pat| - 1 - f]
      invariant -1 <= g <= f && Matches(pat, f, f - g)
    {
      g := g - 1;
    }
  }

  /** The comparison that starts where the last one ended, or afresh. */
  method Rematch(pat: seq<Byte>, f: int, g0: int, i: int, ghost k: int) returns (g: int)
    requires 0 <= i < |pat| && -1 <= g0
    requires i > g0 ==> i < f < |pat| && Matches(pat, f, f - g0) && IsSuff(pat, i + |pat| - 1 - f, k) && k >= i - g0
    ensures -1 <= g <= i && IsSuff(pat, i, i - g)
  {
    g := g0;
    if i > g {
      SuffExtends(pat, f, g, i, k);
    }
    if i < g {
      g := i;
    }
    g := Extend(pat, i, g);
  }

  /** `suffixes()` */
  method Suffixes(pat: seq<Byte>) returns (suff: array<int>)
    requires |pat| >= 1
    ensures fresh(suff) && suff.Length == |pat|
    ensures forall i :: 0 <= i < |pat| ==> IsSuff(pat, i, suff[i])
  {
    var m := |pat|;
    suff := new int[m];
    var f := 0;
    suff[m - 1] := m;
    var g := m - 1;
    var i := m - 2;
    while i >= 0
      invariant -1 <= i <= m - 2 && -1 <= g <= m - 1
      invariant forall t :: i < t < m ==> IsSuff(pat, t, suff[t])
      invariant i > g ==> i < f < m - 1 && Matches(pat, f, f - g)
    {
      if i > g && suff[i + m - 1 - f] < i - g {
        SuffCopied(pat, f, g, i, suff[i + m - 1 - f]);
        suff[i] := suff[i + m - 1 - f];
      } else {
        g := Rematch(pat, f, g, i, if i > g then suff[i + m - 1 - f] else 0);
        f := i;
        suff[i] := f - g;
      }
      i := i - 1;
    }
  }

  /* ---------- The good-suffix table ---------- */

  /** The pattern moved by `s` agrees with itself. */
  ghost predicate Border(pat: seq<Byte>, s: int) {
    1 <= s <= |pat| && forall t :: s <= t < |pat| ==> pat[t - s] == pat[t]
  }

  ghost predicate LeastBorder(pat: seq<Byte>, p: int, v: int) {
    p < v && Border(pat, v) && forall s :: p < s < v ==> !Border(pat, s)
  }

  /** The last loop of `preBmGs()` writes the shift `s` at `p`. */
  ghost predicate Hit(pat: seq<Byte>, p: int, s: int) {
    1 <= s < |pat| && IsSuff(pat, |pat| - 1 - s, |pat| - 1 - p)
  }

  /** The entry at `p` when the shifts above `lo` have been written, in falling order. */
  ghost predicate GoodAbove(pat: seq<Byte>, p: int, v: int, lo: int) {
    || (lo < v && Hit(pat, p, v) && forall s :: lo < s < v ==> !Hit(pat, p, s))
    || (LeastBorder(pat, p, v) && forall s :: lo < s < |pat| ==> !Hit(pat, p, s))
  }

  lemma BorderIsSuff(pat: seq<Byte>, s: int, k: int)
    requires 1 <= s < |pat| && IsSuff(pat, |pat| - 1 - s, k)
    ensures Border(pat, s) <==> k == |pat| - s
  {
  }

  /** The shifts the last loop writes are the consistent ones that leave the mismatch inside the
      pattern, and the one just past it. */
  lemma HitIsConsistent(pat: seq<Byte>, p: int, s: int)
    requires 0 <= p < |pat| && 1 <= s
    ensures Hit(pat, p, s) ==> s <= p + 1 && Consistent(pat, p, s)
    ensures s <= p && Consistent(pat, p, s) ==> Hit(pat, p, s)
    ensures s > p ==> (Consistent(pat, p, s) <==> s > |pat| || Border(pat, s))
  {
  }

  lemma GoodAboveAll(pat: seq<Byte>, p: int, v: int)
    requires 0 <= p < |pat| && GoodAbove(pat, p, v, 0)
    ensures IsGoodShift(pat, p, v)
  {
    assert 1 <= v <= |pat|;
    HitIsConsistent(pat, p, v);
    forall s | 1 <= s < v ensures !Consistent(pat, p, s) {
      HitIsConsistent(pat, p, s);
    }
  }

  /** One write of the last loop. */
  lemma GoodAboveStep(pat: seq<Byte>, s: int, k: int, p: int, v: int)
    requires 1 <= s < |pat| && IsSuff(pat, |pat| - 1 - s, k)
    requires 0 <= p < |pat| && GoodAbove(pat, p, v, s)
    ensures GoodAbove(pat, p, if p == |pat| - 1 - k then s else v, s - 1)
  {
  }

  /** The part of `bmGs` filled so far in the border loop. */
  ghost predicate BordersDone(pat: seq<Byte>, gs: seq<int>, j: int) {
    && 0 <= j <= |gs| == |pat|
    && (forall p :: 0 <= p < j ==> LeastBorder(pat, p, gs[p]))
    && (forall p :: j <= p < |pat| ==> gs[p] == |pat|)
  }

  /** Every border shift below `s` has been seen, and none is above `j`. */
  ghost predicate NoBorderBetween(pat: seq<Byte>, j: int, s: int) {
    forall b :: j < b < s ==> !Border(pat, b)
  }

  method BorderLoop(pat: seq<Byte>, suff: array<int>, prep: array<int>)
    requires |pat| >= 1 && suff.Length == |pat| <= prep.Length && suff != prep
    requires forall i :: 0 <= i < |pat| ==> IsSuff(pat, i, suff[i])
    modifies prep
    ensures prep[|pat|..] == old(prep[|pat|..])
    ensures forall p :: 0 <= p < |pat| ==> LeastBorder(pat, p, prep[p])
  {
    var m := |pat|;
    var i := 0;
    while i < m
      invariant 0 <= i <= m && forall p :: 0 <= p < i ==> prep[p] == m
      invariant prep[m..] == old(prep[m..])
    {
      prep[i] := m;
      i := i + 1;
    }
    var j := 0;
    i := m - 1;
    while i >= 0
      invariant -1 <= i < m && 0 <= j <= m - 1 - i
      invariant BordersDone(pat, prep[..m], j) && NoBorderBetween(pat, j, m - 1 - i)
      invariant prep[m..] == old(prep[m..])
    {
      if suff[i] == i + 1 {
        while j < m - 1 - i
          invariant 0 <= j <= m - 1 - i
          invariant BordersDone(pat, prep[..m], j) && NoBorderBetween(pat, j, m - 1 - i)
          invariant prep[m..] == old(prep[m..])
        {
          BorderIsSuff(pat, m - 1 - i, suff[i]);
          if prep[j] == m {
            prep[j] := m - 1 - i;
          }
          j := j + 1;
        }
      } else if i < m - 1 {
        BorderIsSuff(pat, m - 1 - i, suff[i]);
      }
      i := i - 1;
    }
    assert Border(pat, m);
  }

  /** `preBmGs()` */
  method GoodSuffixes(pat: seq<Byte>, suff: array<int>, prep: array<int>)
    requires |pat| >= 1 && suff.Length == |pat| <= prep.Length && suff != prep
    requires forall i :: 0 <= i < |pat| ==> IsSuff(pat, i, suff[i])
    modifies prep
    ensures prep[|pat|..] == old(prep[|pat|..])
    ensures forall p :: 0 <= p < |pat| ==> IsGoodShift(pat, p, prep[p])
  {
    var m := |pat|;
    BorderLoop(pat, suff, prep);
    var i := 0;
    while i <= m - 2
      invariant 0 <= i <= m - 1
      invariant forall p :: 0 <= p < m ==> GoodAbove(pat, p, prep[p], m - 1 - i)
      invariant prep[m..] == old(prep[m..])
    {
      forall p | 0 <= p < m
        ensures GoodAbove(pat, p, if p == m - 1 - suff[i] then m - 1 - i else prep[p], m - 1 - (i + 1)) {
        GoodAboveStep(pat, m - 1 - i, suff[i], p, prep[p]);
      }
      prep[m - 1 - suff[i]] := m - 1 - i;
      i := i + 1;
    }
    forall p | 0 <= p < m ensures IsGoodShift(pat, p, prep[p]) {
      GoodAboveAll(pat, p, prep[p]);
    }
  }

  /* ---------- The bad-character table ---------- */

  /** `preBmBc()` */
  method BadChars(pat: seq<Byte>, prep: array<int>)
    requires |pat| >= 1 && prep.Length == |pat| + 256
    modifies prep
    ensures forall x :: |pat| <= x < |pat| + 256 ==> IsBadChar(pat, x - |pat|, prep[x])
  {
    var m := |pat|;
    var i := 0;
    while i < 256
      invariant 0 <= i <= 256 && forall x :: m <= x < m + i ==> prep[x] == m
    {
      prep[m + i] := m;
      i := i + 1;
    }
    i := 0;
    while i < m - 1
      invariant 0 <= i <= m - 1
      invariant forall x :: m <= x < m + 256 ==> LastSeen(pat, x - m, prep[x], i)
    {
      prep[m + pat[i]] := m - i - 1;
      i := i + 1;
    }
  }

  ghost predicate LastSeen(pat: seq<Byte>, c: Byte, v: int, upto: int)
    requires upto <= |pat|
  {
    && |pat| - upto <= v <= |pat| && 1 <= v
    && (v < |pat| ==> pat[|pat| - 1 - v] == c)
    && forall i :: |pat| - v <= i < upto ==> pat[i] != c
  }

  /* ---------- The search ---------- */

  /** What a table holds that was made for `pat`. */
  ghost predicate Prepared(pat: seq<Byte>, prep: array<int>)
    reads prep
  {
    && |pat| >= 1 && prep.Length == |pat| + 256
    && (forall i :: 0 <= i < |pat| ==> IsGoodShift(pat, i, prep[i]))
    && (forall x :: |pat| <= x < |pat| + 256 ==> IsBadChar(pat, x - |pat|, prep[x]))
  }

  /** `ksBM_prep` */
  method Prep(pat: seq<Byte>) returns (prep: array<int>)
    requires |pat| >= 1
    ensures fresh(prep) && Prepared(pat, prep)
  {
    prep := new int[|pat| + 256];
    BadChars(pat, prep);
    var suff := Suffixes(pat);
    GoodSuffixes(pat, suff, prep);
  }

  lemma OccursPointwise(str: seq<Byte>, pat: seq<Byte>, j: int)
    ensures OccursAt(str, pat, j) <==>
            0 <= j <= |str| - |pat| && forall u :: 0 <= u < |pat| ==> pat[u] == str[u + j]
  {
  }

  /** A mismatch at `i` rules out every start before the next one tried. */
  lemma Skipped(str: seq<Byte>, pat: seq<Byte>, j: int, i: int, gs: int, bc: int, j': int)
    requires 0 <= j <= |str| - |pat| && 0 <= i < |pat| && pat[i] != str[i + j]
    requires forall t :: i < t < |pat| ==> pat[t] == str[t + j]
    requires IsGoodShift(pat, i, gs) && IsBadChar(pat, str[i + j], bc)
    requires j <= j' < j + gs || j <= j' < j + (bc - |pat| + 1 + i)
    ensures !OccursAt(str, pat, j')
  {
    OccursPointwise(str, pat, j');
    var s := j' - j;
    assert s == 0 || s >= gs || !Consistent(pat, i, s);
    assert s <= i ==> pat[i - s] != str[i - s + j'] || s < gs;
  }

  /** The table argument of `kmemmem`: none, or a place that holds a table or nothing. */
  datatype Cache = NoCache | Place(prep: array?<int>)

  /** `kmemmem` */
  method Search(str: seq<Byte>, pat: seq<Byte>, cache: Cache) returns (r: Option<nat>, cache': Cache)
    requires |pat| >= 1
    requires cache.Place? && cache.prep != null ==> Prepared(pat, cache.prep)
    ensures r.Some? ==> OccursAt(str, pat, r.value) && forall j :: 0 <= j < r.value ==> !OccursAt(str, pat, j)
    ensures r.None? ==> forall j :: !OccursAt(str, pat, j)
    ensures cache.Place? <==> cache'.Place?
    ensures cache'.Place? ==> cache'.prep != null && Prepared(pat, cache'.prep)
    ensures cache'.Place? && cache.prep != null ==> cache' == cache
  {
    var n, m := |str|, |pat|;
    var prep: array<int>;
    if cache.NoCache? || cache.prep == null {
      prep := Prep(pat);
    } else {
      prep := cache.prep;
    }
    cache' := if cache.Place? then Place(prep) else NoCache;
    var j := 0;
    while j <= n - m
      invariant 0 <= j
      invariant forall j' :: 0 <= j' < j ==> !OccursAt(str, pat, j')
    {
      var i := m - 1;
      while i >= 0 && pat[i] == str[i + j]
        invariant -1 <= i < m
        invariant forall t :: i < t < m ==> pat[t] == str[t + j]
      {
        i := i - 1;
      }
      if i >= 0 {
        var max := prep[m + str[i + j]] - m + 1 + i;
        if max < prep[i] {
          max := prep[i];
        }
        forall j' | j <= j' < j + max ensures !OccursAt(str, pat, j') {
          Skipped(str, pat, j, i, prep[i], prep[m + str[i + j]], j');
        }
        j := j + max;
      } else {
        assert str[j..j + m] == pat;
        return Some(j), cache';
      }
    }
    return None, cache';
  }
}
