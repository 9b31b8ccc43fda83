/** The open-addressing hash table that src/klib/khash.h generates. */
module KHash {
  import opened Arith
  import opened Probe

  /** The two flag bits of a bucket: 00, 01 and 10. */
  datatype Flag = Live | Deleted | Empty

  const TWO31: nat := 0x8000_0000
  const TWO32: nat := 0x1_0000_0000

  /** `(khint_t)(n * 0.77 + 0.5)` */
  function Upper(n: nat): (u: nat)
    ensures n >= 4 ==> n / 2 < u < n
  {
    (77 * n + 50) / 100
  }

  /** The logarithm of the least power of two at or above `x`. */
  function RoundLog(x: nat): (m: nat)
    requires x >= 1
    ensures x <= Pow2(m) && (m > 0 ==> Pow2(m - 1) < x)
  {
    if x == 1 then 0 else 1 + RoundLog((x + 1) / 2)
  }

  /** `kroundup32`: 0 when the power of two would need more than 32 bits. */
  function RoundUp32(x: nat): (r: nat) {
    if 1 <= x <= TWO31 then Pow2(RoundLog(x)) else 0
  }

  lemma RoundLogIs(x: nat, m: nat)
    requires x >= 1 && x <= Pow2(m) && (m > 0 ==> Pow2(m - 1) < x)
    ensures RoundLog(x) == m
  {
    var r := RoundLog(x);
    if r < m {
      Pow2Monotone(r, m - 1);
    } else if m < r {
      Pow2Monotone(m, r - 1);
    }
  }

  /** What `kh_resize` makes of the requested size. */
  function NewSize(x: nat): (n: nat) {
    if RoundUp32(x) < 4 then 4 else RoundUp32(x)
  }

  ghost function NewLog(x: nat): nat {
    if RoundUp32(x) < 4 then 2 else RoundLog(x)
  }

  lemma NewSizeIsPow2(x: nat)
    ensures NewSize(x) == Pow2(NewLog(x)) && 2 <= NewLog(x) <= 31 && 4 <= NewSize(x) <= TWO31
  {
    Pow2Of32();
    assert Pow2(2) == 4;
    if RoundUp32(x) >= 4 {
      var m := RoundLog(x);
      if m > 31 {
        Pow2Monotone(31, m - 1);
      } else if m < 2 {
        Pow2Monotone(m, 1);
      } else {
        Pow2Monotone(m, 31);
      }
    }
  }

  lemma NewSizeIs(x: nat, m: nat)
    requires 2 <= m <= 31 && Pow2(m - 1) < x <= Pow2(m)
    ensures NewSize(x) == Pow2(m) <= TWO31
  {
    Pow2Of32();
    Pow2Monotone(m, 31);
    Pow2Monotone(1, m - 1);
    RoundLogIs(x, m);
  }

  /** Asking for one bucket less keeps the size; asking for one more doubles it, or starts at four.
      Doubling the largest size wraps to zero, and so asks for four. */
  lemma NewSizeNearby(n: nat, m: nat)
    requires n == Pow2(m) && 2 <= m <= 31 && n >= 4
    ensures NewSize(n - 1) == n && NewSize(1) == 4
    ensures n <= TWO31 && NewSize(n + 1) == if n < TWO31 then 2 * n else 4
  {
    Pow2Of32();
    assert RoundLog(1) == 0;
    NewSizeIs(n - 1, m);
    if m < 31 {
      Pow2Monotone(m, 30);
      NewSizeIs(n + 1, m + 1);
    }
  }

  /** The size `kh_put` asks for when too many buckets are occupied: the same again when the live
      keys fill less than half of them, else the next one. */
  function Asked(n: nat, size: nat): (x: nat)
    requires n < TWO32
    ensures x < TWO32
  {
    if n > (2 * size) % TWO32 then n - 1 else (n + 1) % TWO32
  }

  lemma AskedIs(n: nat, size: nat)
    requires n <= TWO31
    ensures Asked(n, size) == if n > (2 * size) % TWO32 then n - 1 else n + 1
  {
  }

  lemma AskedSize(n: nat, m: nat, size: nat) returns (a: nat)
    requires n > 0 ==> n == Pow2(m) && 2 <= m <= 31 && 4 <= n <= TWO31
    ensures a == NewSize(Asked(n, size))
    ensures a == if n > (2 * size) % TWO32 then n else if 0 < n < TWO31 then 2 * n else 4
  {
    AskedIs(n, size);
    var x := Asked(n, size);
    a := NewSize(x);
    if n == 0 {
      NewSizeNearby(4, 2);
      assert x == 1;
    } else if n > (2 * size) % TWO32 {
      NewSizeNearby(n, m);
      assert x == n - 1;
    } else {
      NewSizeNearby(n, m);
      assert x == n + 1;
    }
  }

  /** That request is never refused, except for a table of the largest size. */
  lemma RoomAfterResize(n: nat, size: nat, a: nat)
    requires n > 0 ==> 4 <= n <= TWO31
    requires size <= n && (0 < n < TWO31 ==> size <= Upper(n))
    requires a == if n > (2 * size) % TWO32 then n else if 0 < n < TWO31 then 2 * n else 4
    ensures a >= 4 && if n < TWO31 then size < Upper(a) else a == n || size >= Upper(a)
  {
  }

  /* ---------- Tables as values ---------- */

  /** `pos` is where the live keys are: each in one bucket, and every live bucket is one of them. */
  ghost predicate Indexed<K(!new)>(flags: seq<Flag>, keys: seq<K>, pos: map<K, nat>) {
    && |flags| <= |keys|
    && (forall k :: k in pos ==> pos[k] < |flags| && flags[pos[k]] == Live && keys[pos[k]] == k)
    && (forall b :: 0 <= b < |flags| && flags[b] == Live ==> keys[b] in pos && pos[keys[b]] == b)
  }

  /** The first `t` probes of `h` meet no empty bucket. */
  ghost predicate Passes(flags: seq<Flag>, h: nat, t: nat)
    requires |flags| > 0
  {
    forall s: nat :: s < t ==> flags[At(h, |flags|, s)] != Empty
  }

  lemma PassesOn(flags: seq<Flag>, h: nat, t: nat)
    requires |flags| > 0 && Passes(flags, h, t) && flags[At(h, |flags|, t)] != Empty
    ensures Passes(flags, h, t + 1)
  {
  }

  /** Bucket `b` is on the probe path of `h`, before any empty bucket. */
  ghost predicate OnPath(flags: seq<Flag>, h: nat, b: nat)
    requires |flags| > 0
  {
    exists t: nat :: t < |flags| && At(h, |flags|, t) == b && Passes(flags, h, t)
  }

  ghost predicate Reachable<K(!new)>(hash: K -> nat, flags: seq<Flag>, pos: map<K, nat>) {
    pos == map[] || (|flags| > 0 && forall k :: k in pos ==> OnPath(flags, hash(k), pos[k]))
  }

  /** None of the first `t` probes of `h` finds `key`. */
  ghost predicate NoMatch<K(!new)>(flags: seq<Flag>, keys: seq<K>, h: nat, t: nat, key: K)
    requires 0 < |flags| <= |keys|
  {
    forall s: nat :: s < t ==> !(flags[At(h, |flags|, s)] == Live && keys[At(h, |flags|, s)] == key)
  }

  lemma NoMatchOn<K(!new)>(flags: seq<Flag>, keys: seq<K>, h: nat, t: nat, key: K)
    requires 0 < |flags| <= |keys| && NoMatch(flags, keys, h, t, key)
    requires var i := At(h, |flags|, t); flags[i] != Live || keys[i] != key
    ensures NoMatch(flags, keys, h, t + 1, key)
  {
  }

  ghost predicate NoTombstone(flags: seq<Flag>, h: nat, t: nat)
    requires |flags| > 0
  {
    forall s: nat :: s < t ==> flags[At(h, |flags|, s)] != Deleted
  }

  /** A search that ends at an empty bucket without a match proves the key absent. */
  lemma AbsentAtEmpty<K(!new)>(hash: K -> nat, flags: seq<Flag>, keys: seq<K>, pos: map<K, nat>, key: K, t: nat)
    requires 0 < |flags| && Indexed(flags, keys, pos) && Reachable(hash, flags, pos)
    requires NoMatch(flags, keys, hash(key), t, key) && flags[At(hash(key), |flags|, t)] == Empty
    ensures key !in pos
  {
  }

  /** A search that has gone all the way round without a match proves the key absent. */
  lemma AbsentAfterAll<K(!new)>(hash: K -> nat, flags: seq<Flag>, keys: seq<K>, pos: map<K, nat>, key: K, t: nat)
    requires 0 < |flags| <= t && Indexed(flags, keys, pos) && Reachable(hash, flags, pos)
    requires NoMatch(flags, keys, hash(key), t, key)
    ensures key !in pos
  {
  }

  /** One more step of the walk, in 32-bit arithmetic; it has not come full circle before step
      2n - 1. */
  lemma NextBucket(h: nat, m: nat, i: nat, step: nat)
    requires m <= 31 && i == At(h, Pow2(m), step) && step < 2 * Pow2(m) - 1
    ensures (i + (step + 1)) % TWO32 % Pow2(m) == At(h, Pow2(m), step + 1)
    ensures At(h, Pow2(m), step + 1) != h % Pow2(m) ==> step + 1 < 2 * Pow2(m) - 1
  {
    AtNext(h, Pow2(m), step);
    WrapUnderMask(i + (step + 1), m);
    if step + 1 == 2 * Pow2(m) - 1 {
      FullCircle(h, m);
    }
  }

  /** `i = (i + (++step)) & mask` */
  method Advance(i: nat, step: nat, n: nat, ghost h: nat, ghost m: nat) returns (i': nat)
    requires n == Pow2(m) && m <= 31 && i == At(h, n, step) && step < 2 * n - 1
    ensures i' == At(h, n, step + 1) && (i' != h % n ==> step + 1 < 2 * n - 1)
  {
    NextBucket(h, m, i, step);
    i' := (i + (step + 1)) % TWO32 % n;
  }

  /** A bucket reached without passing an empty one is on the path, however long the walk was. */
  lemma WalkIsPath(flags: seq<Flag>, h: nat, m: nat, t: nat)
    requires |flags| == Pow2(m) && Passes(flags, h, t)
    ensures OnPath(flags, h, At(h, |flags|, t))
  {
    var s := ProbesCover(h, m, At(h, |flags|, t));
    if s <= t {
      assert Passes(flags, h, s);
    } else {
      assert t < |flags|;
    }
  }

  /** Writing a new key into a bucket on its path that is not live. */
  lemma InsertKeeps<K(!new)>(hash: K -> nat, flags: seq<Flag>, keys: seq<K>, pos: map<K, nat>, key: K, x: nat)
    requires |flags| > 0 && Indexed(flags, keys, pos) && Reachable(hash, flags, pos)
    requires key !in pos && x < |flags| && flags[x] != Live && OnPath(flags, hash(key), x)
    ensures Indexed(flags[x := Live], keys[x := key], pos[key := x])
    ensures Reachable(hash, flags[x := Live], pos[key := x])
  {
  }

  /** Deleting a live key leaves a tombstone, so every other key stays reachable. */
  lemma DeleteKeeps<K(!new)>(hash: K -> nat, flags: seq<Flag>, keys: seq<K>, pos: map<K, nat>, x: nat)
    requires Indexed(flags, keys, pos) && Reachable(hash, flags, pos)
    requires x < |flags| && flags[x] == Live
    ensures Indexed(flags[x := Deleted], keys, pos - {keys[x]})
    ensures Reachable(hash, flags[x := Deleted], pos - {keys[x]})
  {
  }

  /** What `kh_put` needs of the bucket it settles on: it holds the key, or is free and on the
      key's path.  When every bucket holds another key there is no such bucket. */
  ghost predicate IsSlot<K(!new)>(hash: K -> nat, flags: seq<Flag>, pos: map<K, nat>, key: K, x: nat) {
    && x < |flags|
    && (key in pos ==> x == pos[key])
    && (key !in pos ==> if flags[x] != Live then OnPath(flags, hash(key), x) else AllLive(flags))
  }

  ghost predicate AllLive(flags: seq<Flag>) {
    forall b :: 0 <= b < |flags| ==> flags[b] == Live
  }

  /** The state of the walk after `t` steps; `site` is a tombstone met on the way, or |flags|. */
  ghost predicate Searched<K(!new)>(hash: K -> nat, flags: seq<Flag>, keys: seq<K>, key: K, t: nat, site: nat)
    requires 0 < |flags| <= |keys|
  {
    && NoMatch(flags, keys, hash(key), t, key) && Passes(flags, hash(key), t)
    && if site == |flags| then NoTombstone(flags, hash(key), t)
       else site < |flags| && flags[site] == Deleted && OnPath(flags, hash(key), site)
  }

  lemma SearchOn<K(!new)>(hash: K -> nat, flags: seq<Flag>, keys: seq<K>, key: K, m: nat, t: nat, site: nat)
    requires 0 < |flags| <= |keys| && |flags| == Pow2(m) && Searched(hash, flags, keys, key, t, site)
    requires var i := At(hash(key), |flags|, t); flags[i] != Empty && (flags[i] == Deleted || keys[i] != key)
    ensures var i := At(hash(key), |flags|, t);
            Searched(hash, flags, keys, key, t + 1, if flags[i] == Deleted then i else site)
  {
    WalkIsPath(flags, hash(key), m, t);
  }

  lemma SlotAtEmpty<K(!new)>(hash: K -> nat, flags: seq<Flag>, keys: seq<K>, pos: map<K, nat>, key: K, m: nat, t: nat)
    requires 0 < |flags| == Pow2(m) && Indexed(flags, keys, pos) && Reachable(hash, flags, pos)
    requires NoMatch(flags, keys, hash(key), t, key) && Passes(flags, hash(key), t)
    requires flags[At(hash(key), |flags|, t)] == Empty
    ensures key !in pos && OnPath(flags, hash(key), At(hash(key), |flags|, t))
  {
    AbsentAtEmpty(hash, flags, keys, pos, key, t);
    WalkIsPath(flags, hash(key), m, t);
  }

  lemma SlotAfterAll<K(!new)>(hash: K -> nat, flags: seq<Flag>, keys: seq<K>, pos: map<K, nat>, key: K, m: nat,
                              t: nat, site: nat)
    requires 0 < |flags| == Pow2(m) <= t && Indexed(flags, keys, pos) && Reachable(hash, flags, pos)
    requires Searched(hash, flags, keys, key, t, site)
    ensures key !in pos && (site == |flags| ==> AllLive(flags))
  {
    AbsentAfterAll(hash, flags, keys, pos, key, t);
    if site == |flags| {
      forall b | 0 <= b < |flags| ensures flags[b] == Live {
        var s := ProbesCover(hash(key), m, b);
      }
    }
  }

  ghost function Occupied(flags: seq<Flag>): set<nat> {
    set b: nat | b < |flags| && flags[b] != Empty
  }

  ghost function LiveSet(flags: seq<Flag>): set<nat> {
    set b: nat | b < |flags| && flags[b] == Live
  }

  /** There are as many live buckets as live keys. */
  lemma {:induction false} Bijection<K(!new)>(pos: map<K, nat>, keys: seq<K>, s: set<nat>)
    requires forall k :: k in pos ==> pos[k] in s
    requires forall b :: b in s ==> b < |keys| && keys[b] in pos && pos[keys[b]] == b
    requires forall k :: k in pos ==> pos[k] < |keys| && keys[pos[k]] == k
    ensures |s| == |pos|
    decreases s
  {
    if s == {} {
      assert pos == map[];
    } else {
      var b :| b in s;
      var rest := pos - {keys[b]};
      assert rest.Keys == pos.Keys - {keys[b]};
      Bijection(rest, keys, s - {b});
    }
  }

  lemma LiveCount<K(!new)>(flags: seq<Flag>, keys: seq<K>, pos: map<K, nat>)
    requires Indexed(flags, keys, pos)
    ensures |LiveSet(flags)| == |pos| <= |flags|
    ensures AllLive(flags) <==> |pos| == |flags|
  {
    var all := Below(|flags|);
    Bijection(pos, keys, LiveSet(flags));
    SubsetSize(LiveSet(flags), all);
    assert AllLive(flags) ==> LiveSet(flags) == all;
    if |pos| == |flags| {
      SubsetOfSameSize(LiveSet(flags), all);
      forall b | 0 <= b < |flags| ensures flags[b] == Live {
        assert b in all;
      }
    }
  }

  lemma LiveOccupied<K(!new)>(flags: seq<Flag>, keys: seq<K>, pos: map<K, nat>)
    requires Indexed(flags, keys, pos)
    ensures |pos| <= |Occupied(flags)| <= |flags|
  {
    LiveCount(flags, keys, pos);
    SubsetSize(LiveSet(flags), Occupied(flags));
    SubsetSize(Occupied(flags), Below(|flags|));
  }

  lemma OccupiedAfter(flags: seq<Flag>, x: nat, f: Flag)
    requires x < |flags| && f != Empty
    ensures |Occupied(flags[x := f])| == |Occupied(flags)| + if flags[x] == Empty then 1 else 0
  {
    var was, now := Occupied(flags), Occupied(flags[x := f]);
    assert now == was + {x};
    if flags[x] == Empty {
      assert x !in was;
      assert |was + {x}| == |was| + 1;
    } else {
      assert x in was;
      assert was + {x} == was;
    }
  }

  /** A slot that is taken holds the key, unless the table is full. */
  lemma SlotTaken<K(!new)>(hash: K -> nat, flags: seq<Flag>, keys: seq<K>, pos: map<K, nat>, key: K, x: nat)
    requires |flags| > 0 && Indexed(flags, keys, pos) && IsSlot(hash, flags, pos, key, x) && flags[x] == Live
    ensures if key in pos then keys[x] == key else keys[x] != key && |pos| == |Occupied(flags)| == |flags|
  {
    LiveCount(flags, keys, pos);
    LiveOccupied(flags, keys, pos);
  }

  lemma SlotFree<K(!new)>(hash: K -> nat, flags: seq<Flag>, keys: seq<K>, pos: map<K, nat>, key: K, x: nat)
    requires |flags| > 0 && Indexed(flags, keys, pos) && IsSlot(hash, flags, pos, key, x) && flags[x] != Live
    ensures key !in pos && OnPath(flags, hash(key), x) && |pos| < |flags|
  {
    LiveCount(flags, keys, pos);
  }

  /** A table of `n` live buckets, key `b` in bucket `b`. */
  ghost predicate Brimful(n: nat, flags: seq<Flag>, keys: seq<nat>, pos: map<nat, nat>) {
    && |flags| == |keys| == n && AllLive(flags) && (forall b :: 0 <= b < n ==> keys[b] == b)
    && pos.Keys == Below(n) && (forall k :: k in pos ==> pos[k] == k)
  }

  lemma HomeOnPath(flags: seq<Flag>, h: nat)
    requires h < |flags|
    ensures OnPath(flags, h, h)
  {
    assert At(h, |flags|, 0) == h && Passes(flags, h, 0);
  }

  lemma BrimfulIsSound(n: nat, hash: nat -> nat, flags: seq<Flag>, keys: seq<nat>, pos: map<nat, nat>)
    requires n > 0 && Brimful(n, flags, keys, pos) && forall k :: hash(k) == k
    ensures Indexed(flags, keys, pos) && Reachable(hash, flags, pos) && |pos| == n
  {
    assert |pos.Keys| == n;
    forall k | k in pos ensures OnPath(flags, hash(k), pos[k]) {
      assert k in Below(n);
      HomeOnPath(flags, k);
    }
  }

  /** The table that `kh_put` cannot insert into has 2^31 live buckets.  Asked to grow, it stays as it
      is, and the bucket found for a new key holds another key. */
  lemma FullTable(hash: nat -> nat, flags: seq<Flag>, keys: seq<nat>, pos: map<nat, nat>, x: nat)
    requires Brimful(TWO31, flags, keys, pos) && forall k :: hash(k) == k
    requires IsSlot(hash, flags, pos, TWO31, x)
    ensures Indexed(flags, keys, pos) && Reachable(hash, flags, pos)
    ensures TWO31 !in pos && flags[x] == Live && keys[x] != TWO31
    ensures NewSize(Asked(TWO31, |pos|)) == TWO31 && |pos| >= Upper(TWO31)
  {
    BrimfulIsSound(TWO31, hash, flags, keys, pos);
    Pow2Of32();
    var a := AskedSize(TWO31, 31, TWO31);
  }

  /* ---------- The kick-out rehash ---------- */

  /** A rehash in progress.  `left` are the keys not yet picked up, still at their old buckets;
      `done` are the keys placed, at their new buckets; both share the arrays `keys` and `vals`.
      `hand` is the key in hand, if any.  Together they are exactly the keys of `m`. */
  ghost predicate Moving<K(!new), V>(hash: K -> nat, m: map<K, V>, flags: seq<Flag>, newFlags: seq<Flag>,
                                     keys: seq<K>, vals: seq<V>, left: map<K, nat>, done: map<K, nat>, hand: set<K>) {
    && |keys| == |vals|
    && Indexed(flags, keys, left)
    && Indexed(newFlags, keys, done) && Reachable(hash, newFlags, done)
    && (forall b :: 0 <= b < |newFlags| ==> newFlags[b] != Deleted)
    && (forall b :: 0 <= b < |flags| && b < |newFlags| ==> flags[b] != Live || newFlags[b] != Live)
    && left.Keys !! done.Keys !! hand && left.Keys + done.Keys + hand == m.Keys
    && (forall k :: k in left ==> vals[left[k]] == m[k])
    && (forall k :: k in done ==> vals[done[k]] == m[k])
  }

  /** No bucket of the old table becomes live again. */
  ghost predicate FewerLive(flags: seq<Flag>, flags': seq<Flag>) {
    |flags'| == |flags| && forall b :: 0 <= b < |flags| && flags[b] != Live ==> flags'[b] != Live
  }

  lemma PickUp<K(!new), V>(hash: K -> nat, m: map<K, V>, flags: seq<Flag>, newFlags: seq<Flag>,
                           keys: seq<K>, vals: seq<V>, left: map<K, nat>, done: map<K, nat>, j: nat)
    requires Moving(hash, m, flags, newFlags, keys, vals, left, done, {})
    requires j < |flags| && flags[j] == Live
    ensures Moving(hash, m, flags[j := Deleted], newFlags, keys, vals, left - {keys[j]}, done, {keys[j]})
    ensures keys[j] in m && vals[j] == m[keys[j]]
  {
  }

  /** Writing into a bucket that is not live leaves the keys where they are. */
  lemma WriteBeside<K(!new), V>(flags: seq<Flag>, keys: seq<K>, vals: seq<V>, pos: map<K, nat>, key: K, val: V, i: nat)
    requires Indexed(flags, keys, pos) && i < |keys| == |vals| && !(i < |flags| && flags[i] == Live)
    ensures Indexed(flags, keys[i := key], pos)
    ensures forall k :: k in pos ==> vals[i := val][pos[k]] == vals[pos[k]]
  {
  }

  /** The key in hand goes to a bucket nobody uses. */
  lemma PutDown<K(!new), V>(hash: K -> nat, m: map<K, V>, flags: seq<Flag>, newFlags: seq<Flag>, keys: seq<K>,
                            vals: seq<V>, left: map<K, nat>, done: map<K, nat>, key: K, val: V, i: nat)
    requires Moving(hash, m, flags, newFlags, keys, vals, left, done, {key}) && key in m && val == m[key]
    requires i < |newFlags| && newFlags[i] == Empty && OnPath(newFlags, hash(key), i)
    requires !(i < |flags| && flags[i] == Live)
    ensures Moving(hash, m, flags, newFlags[i := Live], keys[i := key], vals[i := val], left, done[key := i], {})
  {
    InsertKeeps(hash, newFlags, keys, done, key, i);
    WriteBeside(flags, keys, vals, left, key, val, i);
    WriteBeside(newFlags, keys, vals, done, key, val, i);
  }

  /** The key in hand goes to the old bucket of a key not yet moved, which is now in hand. */
  lemma KickOut<K(!new), V>(hash: K -> nat, m: map<K, V>, flags: seq<Flag>, newFlags: seq<Flag>, keys: seq<K>,
                            vals: seq<V>, left: map<K, nat>, done: map<K, nat>, key: K, val: V, i: nat)
    requires Moving(hash, m, flags, newFlags, keys, vals, left, done, {key}) && key in m && val == m[key]
    requires i < |newFlags| && newFlags[i] == Empty && OnPath(newFlags, hash(key), i)
    requires i < |flags| && flags[i] == Live
    ensures Moving(hash, m, flags[i := Deleted], newFlags[i := Live], keys[i := key], vals[i := val],
                   left - {keys[i]}, done[key := i], {keys[i]})
    ensures keys[i] in m && vals[i] == m[keys[i]]
    ensures keys[i] in left
  {
    InsertKeeps(hash, newFlags, keys, done, key, i);
  }

  lemma RemoveShrinks<K>(left: map<K, nat>, k: K)
    requires k in left
    ensures |left - {k}| == |left| - 1
  {
  }

  /** While fewer keys are placed than there are buckets, some probe finds an empty bucket. */
  lemma SomeEmpty<K(!new)>(newFlags: seq<Flag>, keys: seq<K>, done: map<K, nat>, h: nat, m: nat) returns (t: nat)
    requires |newFlags| == Pow2(m) && Indexed(newFlags, keys, done) && |done| < |newFlags|
    requires forall b :: 0 <= b < |newFlags| ==> newFlags[b] != Deleted
    ensures t < |newFlags| && newFlags[At(h, |newFlags|, t)] == Empty
  {
    LiveCount(newFlags, keys, done);
    var b :| 0 <= b < |newFlags| && newFlags[b] != Live;
    t := ProbesCover(h, m, b);
  }

  lemma FewerPlaced<K(!new), V>(m: map<K, V>, left: map<K, nat>, done: map<K, nat>, key: K)
    requires left.Keys !! done.Keys !! {key} && left.Keys + done.Keys + {key} == m.Keys
    ensures |done| < |m|
  {
  }

  /** What the kick-out loop relies on with a key in hand. */
  lemma EmptyAhead<K(!new), V>(hash: K -> nat, m: map<K, V>, flags: seq<Flag>, newFlags: seq<Flag>, keys: seq<K>,
                               vals: seq<V>, left: map<K, nat>, done: map<K, nat>, key: K, w: nat) returns (t: nat)
    requires Moving(hash, m, flags, newFlags, keys, vals, left, done, {key})
    requires |newFlags| == Pow2(w) && |m| <= |newFlags|
    ensures t < |newFlags| && newFlags[At(hash(key), |newFlags|, t)] == Empty
    ensures |flags| <= |keys| == |vals| && |newFlags| <= |keys| && key in m
  {
    FewerPlaced(m, left, done, key);
    t := SomeEmpty(newFlags, keys, done, hash(key), w);
  }

  /** `m` is the map that `vals` and `pos` stand for. */
  ghost predicate Stands<K(!new), V>(m: map<K, V>, vals: seq<V>, pos: map<K, nat>) {
    m.Keys == pos.Keys && forall k :: k in pos ==> pos[k] < |vals| && m[k] == vals[pos[k]]
  }

  lemma SameSize<K, V>(m: map<K, V>, pos: map<K, nat>)
    requires m.Keys == pos.Keys
    ensures |m| == |pos|
  {
  }

  lemma InsertStands<K(!new), V>(m: map<K, V>, vals: seq<V>, pos: map<K, nat>, key: K, x: nat)
    requires Stands(m, vals, pos) && key !in pos && x < |vals|
    ensures Stands(m[key := vals[x]], vals, pos[key := x]) && |pos[key := x]| == |pos| + 1
  {
  }

  lemma DeleteStands<K(!new), V>(m: map<K, V>, vals: seq<V>, pos: map<K, nat>, key: K)
    requires Stands(m, vals, pos) && key in pos
    ensures Stands(m - {key}, vals, pos - {key}) && |pos - {key}| == |pos| - 1
  {
  }

  lemma NothingInEmpty<K(!new), V>(m: map<K, V>, vals: seq<V>, pos: map<K, nat>)
    requires Stands(m, vals, pos) && |vals| == 0
    ensures m == map[]
  {
  }

  ghost predicate NoneLive(flags: seq<Flag>, j: nat) {
    forall b :: 0 <= b < j && b < |flags| ==> flags[b] != Live
  }

  lemma NoneLiveNext(flags: seq<Flag>, j: nat)
    requires j < |flags| && NoneLive(flags, j) && flags[j] != Live
    ensures NoneLive(flags, j + 1)
  {
  }

  lemma NoneLiveAfter(flags: seq<Flag>, flags': seq<Flag>, j: nat)
    requires j < |flags| && NoneLive(flags, j) && FewerLive(flags[j := Deleted], flags')
    ensures NoneLive(flags', j + 1)
  {
  }

  /** The start of a rehash: nothing is placed yet. */
  lemma StartMoving<K(!new), V>(hash: K -> nat, m: map<K, V>, flags: seq<Flag>, newFlags: seq<Flag>,
                                keys: seq<K>, vals: seq<V>, pos: map<K, nat>)
    requires Indexed(flags, keys, pos) && |flags| <= |keys| == |vals| && |newFlags| <= |keys|
    requires Stands(m, vals, pos)
    requires forall b :: 0 <= b < |newFlags| ==> newFlags[b] == Empty
    ensures Moving(hash, m, flags, newFlags, keys, vals, pos, map[], {})
  {
  }

  /** The new flags with the first part of the arrays stand for `m`. */
  ghost predicate Rehashed<K(!new), V>(hash: K -> nat, m: map<K, V>, newFlags: seq<Flag>, keys: seq<K>, vals: seq<V>,
                                       pos: map<K, nat>) {
    && |newFlags| == |keys| == |vals|
    && Indexed(newFlags, keys, pos) && Reachable(hash, newFlags, pos) && Stands(m, vals, pos)
    && |Occupied(newFlags)| == |pos|
  }

  /** The end of a rehash: every key is placed, and the new table stands for the same map. */
  lemma DoneMoving<K(!new), V>(hash: K -> nat, m: map<K, V>, flags: seq<Flag>, newFlags: seq<Flag>, keys: seq<K>,
                               vals: seq<V>, left: map<K, nat>, done: map<K, nat>)
    requires Moving(hash, m, flags, newFlags, keys, vals, left, done, {}) && NoneLive(flags, |flags|)
    ensures |newFlags| <= |keys| == |vals|
    ensures Rehashed(hash, m, newFlags, keys[..|newFlags|], vals[..|newFlags|], done)
  {
    assert left == map[];
    LiveCount(newFlags, keys, done);
    assert Occupied(newFlags) == LiveSet(newFlags);
  }

  /* ---------- The table ---------- */

  /** The number of buckets is zero or a power of two. */
  ghost predicate Sized(n: nat, log: nat) {
    n > 0 ==> n == Pow2(log) && 2 <= log <= 31 && 4 <= n <= TWO31
  }

  /** The arrays stand for `dict`. */
  ghost predicate Sound<K(!new), V>(hash: K -> nat, n: nat, flags: seq<Flag>, keys: seq<K>, vals: seq<V>,
                                    dict: map<K, V>, pos: map<K, nat>) {
    && |flags| == |keys| == |vals| == n
    && Indexed(flags, keys, pos) && Reachable(hash, flags, pos) && Stands(dict, vals, pos)
  }

  /** The counters fit the arrays. */
  ghost predicate Counted<K(!new)>(n: nat, size: nat, nOccupied: nat, upper: nat, flags: seq<Flag>, pos: map<K, nat>) {
    && size == |pos| && nOccupied == |Occupied(flags)| && upper == (if n == 0 then 0 else Upper(n))
    && (n < TWO31 ==> nOccupied <= upper)
  }

  lemma InsertSound<K(!new), V>(hash: K -> nat, n: nat, flags: seq<Flag>, keys: seq<K>, vals: seq<V>,
                                dict: map<K, V>, pos: map<K, nat>, key: K, x: nat)
    requires Sound(hash, n, flags, keys, vals, dict, pos)
    requires key !in pos && x < n && flags[x] != Live && OnPath(flags, hash(key), x)
    ensures Sound(hash, n, flags[x := Live], keys[x := key], vals, dict[key := vals[x]], pos[key := x])
  {
    InsertKeeps(hash, flags, keys, pos, key, x);
    InsertStands(dict, vals, pos, key, x);
  }

  lemma InsertCounted<K(!new)>(n: nat, size: nat, nOccupied: nat, upper: nat, flags: seq<Flag>, pos: map<K, nat>,
                               key: K, x: nat)
    requires Counted(n, size, nOccupied, upper, flags, pos) && (n < TWO31 ==> nOccupied < upper)
    requires x < |flags| && flags[x] != Live && key !in pos
    ensures Counted(n, size + 1, nOccupied + if flags[x] == Empty then 1 else 0, upper, flags[x := Live],
                    pos[key := x])
  {
    OccupiedAfter(flags, x, Live);
  }

  lemma DeleteSound<K(!new), V>(hash: K -> nat, n: nat, flags: seq<Flag>, keys: seq<K>, vals: seq<V>,
                                dict: map<K, V>, pos: map<K, nat>, x: nat)
    requires Sound(hash, n, flags, keys, vals, dict, pos) && x < n && flags[x] == Live
    ensures keys[x] in pos
    ensures Sound(hash, n, flags[x := Deleted], keys, vals, dict - {keys[x]}, pos - {keys[x]})
  {
    DeleteKeeps(hash, flags, keys, pos, x);
    DeleteStands(dict, vals, pos, keys[x]);
  }

  lemma DeleteCounted<K(!new)>(n: nat, size: nat, nOccupied: nat, upper: nat, flags: seq<Flag>, pos: map<K, nat>,
                               key: K, x: nat)
    requires Counted(n, size, nOccupied, upper, flags, pos) && x < |flags| && flags[x] == Live && key in pos
    ensures size > 0 && Counted(n, size - 1, nOccupied, upper, flags[x := Deleted], pos - {key})
  {
    RemoveShrinks(pos, key);
    OccupiedAfter(flags, x, Deleted);
  }

  lemma ClearSound<K(!new), V>(hash: K -> nat, n: nat, flags: seq<Flag>, keys: seq<K>, vals: seq<V>)
    requires |flags| == |keys| == |vals| == n && forall b :: 0 <= b < n ==> flags[b] == Empty
    ensures Sound(hash, n, flags, keys, vals, map[], map[]) && Occupied(flags) == {}
  {
  }

  /** A walk that stopped at the key found it. */
  lemma FoundIs<K(!new), V>(hash: K -> nat, n: nat, flags: seq<Flag>, keys: seq<K>, vals: seq<V>,
                            dict: map<K, V>, pos: map<K, nat>, x: nat)
    requires Sound(hash, n, flags, keys, vals, dict, pos) && x < n && flags[x] == Live
    ensures keys[x] in dict && vals[x] == dict[keys[x]] && keys[x] in pos && pos[keys[x]] == x
  {
  }

  /** A bucket for `key` that is taken holds it, unless the table is full at its largest size. */
  lemma TakenOrFull<K(!new), V>(hash: K -> nat, n: nat, flags: seq<Flag>, keys: seq<K>, vals: seq<V>,
                                dict: map<K, V>, pos: map<K, nat>, key: K, x: nat)
    requires 4 <= n <= TWO31 && Sound(hash, n, flags, keys, vals, dict, pos)
    requires n < TWO31 ==> |Occupied(flags)| < Upper(n)
    requires IsSlot(hash, flags, pos, key, x) && flags[x] == Live
    ensures if key in dict then keys[x] == key else keys[x] != key && |pos| == TWO31
  {
    SlotTaken(hash, flags, keys, pos, key, x);
  }

  /** The bucket found is not live: the key is new, and may be put there. */
  lemma NewKey<K(!new), V>(hash: K -> nat, n: nat, flags: seq<Flag>, keys: seq<K>, vals: seq<V>,
                           dict: map<K, V>, pos: map<K, nat>, key: K, x: nat)
    requires 4 <= n <= TWO31 && Sound(hash, n, flags, keys, vals, dict, pos)
    requires IsSlot(hash, flags, pos, key, x) && flags[x] != Live
    ensures key !in dict && key !in pos && |pos| < TWO31
    ensures Sound(hash, n, flags[x := Live], keys[x := key], vals, dict[key := vals[x]], pos[key := x])
  {
    SlotFree(hash, flags, keys, pos, key, x);
    InsertSound(hash, n, flags, keys, vals, dict, pos, key, x);
  }

  class Table<K(==,0,!new), V(0)> {
    const hash: K -> nat
    var nBuckets: nat
    var size: nat
    var nOccupied: nat
    var upperBound: nat
    var flags: seq<Flag>
    var keys: seq<K>
    var vals: seq<V>
    ghost var dict: map<K, V>   // the map the table stands for
    ghost var pos: map<K, nat>  // where its keys are
    ghost var log: nat  // nBuckets == Pow2(log), unless the table is new

    ghost predicate Valid()
      reads this
    {
      && Sized(nBuckets, log) && Sound(hash, nBuckets, flags, keys, vals, dict, pos)
      && Counted(nBuckets, size, nOccupied, upperBound, flags, pos)
    }

    /** `kh_init` */
    constructor (hash: K -> nat)
      ensures Valid() && dict == map[] && this.hash == hash
    {
      this.hash := hash;
      nBuckets, size, nOccupied, upperBound := 0, 0, 0, 0;
      flags, keys, vals := [], [], [];
      dict, pos, log := map[], map[], 0;
    }

    /** The probe loop of `kh_get`; `round` says that it has come full circle. */
    method Walk(key: K) returns (i: nat, round: bool, ghost step: nat)
      requires nBuckets > 0 && Sized(nBuckets, log) && |flags| == |keys| == nBuckets
      ensures i < nBuckets && NoMatch(flags, keys, hash(key), step, key)
      ensures if round then step >= nBuckets
              else i == At(hash(key), nBuckets, step) && (flags[i] == Empty || (flags[i] == Live && keys[i] == key))
    {
      i := hash(key) % nBuckets;
      var last := i;
      var steps := 0;
      while flags[i] != Empty && (flags[i] == Deleted || keys[i] != key)
        invariant i == At(hash(key), nBuckets, steps) && steps < 2 * nBuckets - 1
        invariant NoMatch(flags, keys, hash(key), steps, key)
        decreases 2 * nBuckets - steps
      {
        NoMatchOn(flags, keys, hash(key), steps, key);
        i := Advance(i, steps, nBuckets, hash(key), log);
        steps := steps + 1;
        if i == last {
          ReturnsLate(hash(key), log, steps);
          return i, true, steps;
        }
      }
      return i, false, steps;
    }

    /** `kh_get`: the bucket of a live key, `nBuckets` for every other key. */
    method Get(key: K) returns (x: nat)
      requires Valid()
      ensures if key in dict then x < nBuckets && flags[x] == Live && keys[x] == key && vals[x] == dict[key]
              else x == nBuckets
    {
      if nBuckets == 0 {
        return 0;
      }
      var i, round;
      ghost var step;
      i, round, step := Walk(key);
      if round {
        AbsentAfterAll(hash, flags, keys, pos, key, step);
        return nBuckets;
      }
      if flags[i] == Empty {
        AbsentAtEmpty(hash, flags, keys, pos, key, step);
      } else {
        FoundIs(hash, nBuckets, flags, keys, vals, dict, pos, i);
      }
      return if flags[i] != Live then nBuckets else i;
    }

    /** The probe loop of `kh_put`; `site` is the last tombstone met, or `nBuckets`. */
    method WalkFor(key: K) returns (i: nat, site: nat, round: bool, ghost step: nat)
      requires nBuckets > 0 && Sized(nBuckets, log) && |flags| == |keys| == nBuckets
      ensures i < nBuckets && Searched(hash, flags, keys, key, step, site)
      ensures if round then step >= nBuckets
              else i == At(hash(key), nBuckets, step) && (flags[i] == Empty || (flags[i] == Live && keys[i] == key))
    {
      i := hash(key) % nBuckets;
      site := nBuckets;
      var last := i;
      var steps := 0;
      while flags[i] != Empty && (flags[i] == Deleted || keys[i] != key)
        invariant i == At(hash(key), nBuckets, steps) && steps < 2 * nBuckets - 1
        invariant Searched(hash, flags, keys, key, steps, site)
        decreases 2 * nBuckets - steps
      {
        SearchOn(hash, flags, keys, key, log, steps, site);
        if flags[i] == Deleted {
          site := i;
        }
        i := Advance(i, steps, nBuckets, hash(key), log);
        steps := steps + 1;
        if i == last {
          ReturnsLate(hash(key), log, steps);
          return i, site, true, steps;
        }
      }
      return i, site, false, steps;
    }

    /** The bucket `kh_put` settles on. */
    method FindSlot(key: K) returns (x: nat)
      requires Valid() && nBuckets > 0
      ensures IsSlot(hash, flags, pos, key, x)
    {
      var i, site, round;
      ghost var step;
      i, site, round, step := WalkFor(key);
      x := i;
      if round {
        SlotAfterAll(hash, flags, keys, pos, key, log, step, site);
        if site != nBuckets {
          x := site;
        }
      } else if flags[i] == Empty {
        SlotAtEmpty(hash, flags, keys, pos, key, log, step);
        if site != nBuckets {
          x := site;
        }
      } else {
        FoundIs(hash, nBuckets, flags, keys, vals, dict, pos, i);
      }
    }

    /** The walk of a rehash to the first empty bucket; it has no other end. */
    method FindEmpty(newFlags: seq<Flag>, key: K, ghost newLog: nat, ghost t: nat) returns (i: nat)
      requires |newFlags| == Pow2(newLog) && newLog <= 31
      requires t < |newFlags| && newFlags[At(hash(key), |newFlags|, t)] == Empty
      ensures i < |newFlags| && newFlags[i] == Empty && OnPath(newFlags, hash(key), i)
    {
      i := hash(key) % |newFlags|;
      var step := 0;
      while newFlags[i] != Empty
        invariant step <= t && i == At(hash(key), |newFlags|, step) && Passes(newFlags, hash(key), step)
        decreases t - step
      {
        PassesOn(newFlags, hash(key), step);
        i := Advance(i, step, |newFlags|, hash(key), newLog);
        step := step + 1;
      }
      WalkIsPath(newFlags, hash(key), newLog, step);
    }

    /** Writes the key in hand into bucket `i`. */
    method Store(i: nat, key: K, val: V)
      requires i < |keys| == |vals|
      modifies this`keys, this`vals
      ensures keys == old(keys)[i := key] && vals == old(vals)[i := val] && |keys| == |old(keys)|
    {
      keys, vals := keys[i := key], vals[i := val];
    }

    /** `__ac_set_isdel_true(h->flags, i)` */
    method MarkDeleted(i: nat)
      requires i < |flags|
      modifies this`flags
      ensures flags == old(flags)[i := Deleted] && FewerLive(old(flags), flags)
    {
      flags := flags[i := Deleted];
    }

    /** One turn of the kick-out loop; `more` says that another key is in hand now. */
    method PlaceOne(key: K, val: V, newFlags0: seq<Flag>, ghost m: map<K, V>, ghost newLog: nat,
                    ghost left0: map<K, nat>, ghost done0: map<K, nat>)
      returns (more: bool, key': K, val': V, newFlags: seq<Flag>, ghost left: map<K, nat>, ghost done: map<K, nat>)
      requires |newFlags0| == Pow2(newLog) && newLog <= 31 && |m| <= |newFlags0|
      requires Moving(hash, m, flags, newFlags0, keys, vals, left0, done0, {key}) && key in m && val == m[key]
      modifies this`flags, this`keys, this`vals
      ensures |newFlags| == |newFlags0| && FewerLive(old(flags), flags) && |keys| == |old(keys)|
      ensures Moving(hash, m, flags, newFlags, keys, vals, left, done, if more then {key'} else {})
      ensures more ==> key' in m && val' == m[key'] && |left| < |left0|
    {
      ghost var t := EmptyAhead(hash, m, flags, newFlags0, keys, vals, left0, done0, key, newLog);
      var i := FindEmpty(newFlags0, key, newLog, t);
      newFlags := newFlags0[i := Live];
      done := done0[key := i];
      key', val' := keys[i], vals[i];
      if i < |flags| && flags[i] == Live {
        KickOut(hash, m, flags, newFlags0, keys, vals, left0, done0, key, val, i);
        RemoveShrinks(left0, key');
        left := left0 - {key'};
        more := true;
        Store(i, key, val);
        MarkDeleted(i);
      } else {
        PutDown(hash, m, flags, newFlags0, keys, vals, left0, done0, key, val, i);
        left := left0;
        more := false;
        Store(i, key, val);
      }
    }

    /** The kick-out loop: places the key in hand, and every key that it displaces. */
    method PlaceChain(key0: K, val0: V, newFlags0: seq<Flag>, ghost m: map<K, V>, ghost newLog: nat,
                      ghost left0: map<K, nat>, ghost done0: map<K, nat>)
      returns (newFlags: seq<Flag>, ghost left: map<K, nat>, ghost done: map<K, nat>)
      requires |newFlags0| == Pow2(newLog) && newLog <= 31 && |m| <= |newFlags0|
      requires Moving(hash, m, flags, newFlags0, keys, vals, left0, done0, {key0}) && key0 in m && val0 == m[key0]
      modifies this`flags, this`keys, this`vals
      ensures |newFlags| == |newFlags0| && FewerLive(old(flags), flags) && |keys| == |old(keys)|
      ensures Moving(hash, m, flags, newFlags, keys, vals, left, done, {})
    {
      var more, key, val := true, key0, val0;
      newFlags, left, done := newFlags0, left0, done0;
      while more
        invariant |newFlags| == |newFlags0| && FewerLive(old(flags), flags) && |keys| == |old(keys)|
        invariant Moving(hash, m, flags, newFlags, keys, vals, left, done, if more then {key} else {})
        invariant more ==> key in m && val == m[key]
        decreases more, |left|
      {
        more, key, val, newFlags, left, done := PlaceOne(key, val, newFlags, m, newLog, left, done);
      }
    }

    /** `krealloc` of both arrays; the new elements hold anything. */
    method Grow(n: nat)
      requires |keys| == |vals| < n && Indexed(flags, keys, pos) && Stands(dict, vals, pos)
      modifies this`keys, this`vals
      ensures |keys| == |vals| == n && Indexed(flags, keys, pos) && Stands(dict, vals, pos)
    {
      var key: K := *;
      var val: V := *;
      keys := keys + seq(n - |keys|, i => key);
      vals := vals + seq(n - |vals|, i => val);
    }

    /** The loop over all old buckets. */
    method MoveAll(newN: nat, ghost newLog: nat) returns (newFlags: seq<Flag>, ghost done: map<K, nat>)
      requires newN == Pow2(newLog) && newLog <= 31 && |dict| <= newN
      requires |flags| == nBuckets && Indexed(flags, keys, pos) && |keys| == |vals| && newN <= |keys|
      requires Stands(dict, vals, pos)
      modifies this`flags, this`keys, this`vals
      ensures |newFlags| == newN <= |keys| == |vals| == |old(keys)|
      ensures Rehashed(hash, dict, newFlags, keys[..newN], vals[..newN], done)
    {
      newFlags := seq(newN, i => Empty);
      done := map[];
      ghost var left := pos;
      StartMoving(hash, dict, flags, newFlags, keys, vals, pos);
      var j := 0;
      while j != nBuckets
        invariant j <= nBuckets == |flags| && |newFlags| == newN && |keys| == |old(keys)|
        invariant NoneLive(flags, j)
        invariant Moving(hash, dict, flags, newFlags, keys, vals, left, done, {})
      {
        newFlags, left, done := MoveBucket(j, newFlags, dict, newLog, left, done);
        j := j + 1;
      }
      DoneMoving(hash, dict, flags, newFlags, keys, vals, left, done);
    }

    /** One turn of that loop. */
    method MoveBucket(j: nat, newFlags0: seq<Flag>, ghost m: map<K, V>, ghost newLog: nat,
                      ghost left0: map<K, nat>, ghost done0: map<K, nat>)
      returns (newFlags: seq<Flag>, ghost left: map<K, nat>, ghost done: map<K, nat>)
      requires |newFlags0| == Pow2(newLog) && newLog <= 31 && |m| <= |newFlags0|
      requires j < |flags| && NoneLive(flags, j)
      requires Moving(hash, m, flags, newFlags0, keys, vals, left0, done0, {})
      modifies this`flags, this`keys, this`vals
      ensures |newFlags| == |newFlags0| && |flags| == |old(flags)| && |keys| == |old(keys)|
      ensures NoneLive(flags, j + 1)
      ensures Moving(hash, m, flags, newFlags, keys, vals, left, done, {})
    {
      if flags[j] == Live {
        newFlags, left, done := MoveLive(j, newFlags0, m, newLog, left0, done0);
      } else {
        NoneLiveNext(flags, j);
        newFlags, left, done := newFlags0, left0, done0;
      }
    }

    /** Picks up the key of a live old bucket and places it. */
    method MoveLive(j: nat, newFlags0: seq<Flag>, ghost m: map<K, V>, ghost newLog: nat,
                    ghost left0: map<K, nat>, ghost done0: map<K, nat>)
      returns (newFlags: seq<Flag>, ghost left: map<K, nat>, ghost done: map<K, nat>)
      requires |newFlags0| == Pow2(newLog) && newLog <= 31 && |m| <= |newFlags0|
      requires j < |flags| && flags[j] == Live && NoneLive(flags, j)
      requires Moving(hash, m, flags, newFlags0, keys, vals, left0, done0, {})
      modifies this`flags, this`keys, this`vals
      ensures |newFlags| == |newFlags0| && |flags| == |old(flags)| && |keys| == |old(keys)|
      ensures NoneLive(flags, j + 1)
      ensures Moving(hash, m, flags, newFlags, keys, vals, left, done, {})
    {
      var key, val := keys[j], vals[j];
      PickUp(hash, m, flags, newFlags0, keys, vals, left0, done0, j);
      ghost var was := flags;
      MarkDeleted(j);
      newFlags, left, done := PlaceChain(key, val, newFlags0, m, newLog, left0 - {key}, done0);
      NoneLiveAfter(was, flags, j);
    }

    /** The rehashing half of `kh_resize`. */
    method Rehash(newN: nat, ghost newLog: nat)
      requires Valid() && newN == Pow2(newLog) && 2 <= newLog <= 31 && 4 <= newN <= TWO31
      requires size < Upper(newN)
      modifies this
      ensures Valid() && dict == old(dict) && size == old(size)
      ensures nBuckets == newN && nOccupied == size
    {
      SameSize(dict, pos);
      if nBuckets < newN {
        Grow(newN);
      }
      var newFlags, done := MoveAll(newN, newLog);
      SameSize(dict, done);
      Install(newFlags, newLog, done);
    }

    /** `krealloc` of both arrays when the table shrinks, and the new flags. */
    method Replace(newFlags: seq<Flag>)
      requires |newFlags| <= |keys| == |vals| && |keys| == if nBuckets > |newFlags| then nBuckets else |newFlags|
      modifies this`keys, this`vals, this`flags, this`nBuckets, this`nOccupied, this`upperBound
      ensures flags == newFlags && keys == old(keys)[..|newFlags|] && vals == old(vals)[..|newFlags|]
      ensures nBuckets == |newFlags| && nOccupied == size && upperBound == Upper(nBuckets)
    {
      if nBuckets > |newFlags| {
        keys, vals := keys[..|newFlags|], vals[..|newFlags|];
      }
      flags := newFlags;
      nBuckets := |newFlags|;
      nOccupied := size;
      upperBound := Upper(nBuckets);
    }

    /** The end of `kh_resize`. */
    method Install(newFlags: seq<Flag>, ghost newLog: nat, ghost done: map<K, nat>)
      requires |newFlags| >= 4 && Sized(|newFlags|, newLog)
      requires |newFlags| <= |keys| == |vals| && |done| == size < Upper(|newFlags|)
      requires |keys| == if nBuckets > |newFlags| then nBuckets else |newFlags|
      requires Rehashed(hash, dict, newFlags, keys[..|newFlags|], vals[..|newFlags|], done)
      modifies this
      ensures Valid() && dict == old(dict) && size == old(size)
      ensures nBuckets == |newFlags| && nOccupied == size
    {
      pos, log := done, newLog;
      Replace(newFlags);
    }

    /** `kh_resize` */
    method Resize(newN: nat) returns (r: int)
      requires Valid() && newN < TWO32
      modifies this
      ensures Valid() && dict == old(dict) && size == old(size) && r == 0
      ensures if size >= Upper(NewSize(newN)) then nBuckets == old(nBuckets) && nOccupied == old(nOccupied)
              else nBuckets == NewSize(newN) && nOccupied == size
    {
      var n := RoundUp32(newN);
      if n < 4 {
        n := 4;
      }
      if size < Upper(n) {
        NewSizeIsPow2(newN);
        Rehash(n, NewLog(newN));
      }
      return 0;
    }

    /** The resizing step of `kh_put`: afterwards there is an empty bucket to spare, or the table has
        the largest size. */
    method EnsureRoom()
      requires Valid()
      modifies this
      ensures Valid() && dict == old(dict) && size == old(size) && nBuckets >= 4
      ensures nBuckets < TWO31 ==> nOccupied < upperBound
    {
      if nOccupied >= upperBound {
        LiveOccupied(flags, keys, pos);
        ghost var a := AskedSize(nBuckets, log, size);
        RoomAfterResize(nBuckets, size, a);
        var r := Resize(Asked(nBuckets, size));
      }
    }

    /** Turns bucket `x` live. */
    method Occupy(key: K, x: nat)
      requires x < |flags| && |flags| == |keys| == |vals|
      modifies this`flags, this`keys, this`size, this`nOccupied, this`dict, this`pos
      ensures flags == old(flags)[x := Live] && keys == old(keys)[x := key] && size == old(size) + 1
      ensures nOccupied == old(nOccupied) + if old(flags)[x] == Empty then 1 else 0
      ensures dict == old(dict)[key := vals[x]] && pos == old(pos)[key := x]
    {
      if flags[x] == Empty {
        nOccupied := nOccupied + 1;
      }
      keys := keys[x := key];
      flags := flags[x := Live];
      size := size + 1;
      dict, pos := dict[key := vals[x]], pos[key := x];
    }

    /** The bucket found is not live: the key is new, and on its path there. */
    method PutNew(key: K, x: nat)
      requires Valid() && nBuckets >= 4 && (nBuckets < TWO31 ==> nOccupied < upperBound)
      requires IsSlot(hash, flags, pos, key, x) && flags[x] != Live
      modifies this
      ensures Valid() && nBuckets == old(nBuckets) && flags[x] == Live && keys[x] == key
      ensures key !in old(dict) && old(size) < TWO31 && dict == old(dict)[key := vals[x]]
    {
      NewKey(hash, nBuckets, flags, keys, vals, dict, pos, key, x);
      InsertCounted(nBuckets, size, nOccupied, upperBound, flags, pos, key, x);
      Occupy(key, x);
    }

    /** `kh_put` */
    method Put(key: K) returns (x: nat, ret: int)
      requires Valid()
      modifies this
      ensures Valid() && x < nBuckets
      ensures key in old(dict) ==> ret == 0 && dict == old(dict) && keys[x] == key && flags[x] == Live
      ensures key !in old(dict) && old(size) < TWO31 ==>
                ret in {1, 2} && dict == old(dict)[key := vals[x]] && keys[x] == key && flags[x] == Live
      ensures key !in old(dict) && old(size) >= TWO31 ==> ret == 0 && dict == old(dict) && keys[x] != key
    {
      EnsureRoom();
      x := FindSlot(key);
      if flags[x] == Live {
        TakenOrFull(hash, nBuckets, flags, keys, vals, dict, pos, key, x);
        return x, 0;
      }
      ret := if flags[x] == Empty then 1 else 2;
      PutNew(key, x);
    }

    /** `kh_value(h, x) = v` after `kh_put`. */
    method SetValue(x: nat, v: V)
      requires Valid() && x < nBuckets && flags[x] == Live
      modifies this`vals, this`dict
      ensures Valid() && dict == old(dict)[keys[x] := v]
    {
      vals := vals[x := v];
      dict := dict[keys[x] := v];
    }

    /** `kh_del` */
    method Del(x: nat)
      requires Valid() && x <= nBuckets
      modifies this
      ensures Valid() && nBuckets == old(nBuckets) && nOccupied == old(nOccupied)
      ensures dict == if x < nBuckets && old(flags)[x] == Live then old(dict) - {old(keys)[x]} else old(dict)
    {
      if x != nBuckets && flags[x] == Live {
        DelLive(x);
      }
    }

    /** Turns bucket `x` into a tombstone. */
    method Bury(x: nat)
      requires x < |flags| && |flags| == |keys| && size > 0
      modifies this`flags, this`size, this`dict, this`pos
      ensures flags == old(flags)[x := Deleted] && size == old(size) - 1
      ensures dict == old(dict) - {keys[x]} && pos == old(pos) - {keys[x]}
    {
      dict, pos := dict - {keys[x]}, pos - {keys[x]};
      flags := flags[x := Deleted];
      size := size - 1;
    }

    method DelLive(x: nat)
      requires Valid() && x < nBuckets && flags[x] == Live
      modifies this
      ensures Valid() && nBuckets == old(nBuckets) && nOccupied == old(nOccupied)
      ensures dict == old(dict) - {old(keys)[x]}
    {
      DeleteSound(hash, nBuckets, flags, keys, vals, dict, pos, x);
      DeleteCounted(nBuckets, size, nOccupied, upperBound, flags, pos, keys[x], x);
      Bury(x);
    }

    /** `kh_clear` */
    method Clear()
      requires Valid()
      modifies this
      ensures Valid() && dict == map[] && nBuckets == old(nBuckets)
    {
      if nBuckets != 0 {
        flags := seq(nBuckets, i => Empty);
        size, nOccupied := 0, 0;
        dict, pos := map[], map[];
        ClearSound(hash, nBuckets, flags, keys, vals);
      } else {
        NothingInEmpty(dict, vals, pos);
      }
    }
  }
}
