/** The recursive mutex of src/lthread.c.  An lthread keeps the processor from one wait to the next, so
    each step is one call, or the stretch from a wake-up to the next wait. */
module Mutex {
  import opened Basics
  import opened Handoff

  /** What `lthread_id` returns of each lthread; lthreads of different schedulers may have the same. */
  type Ids = nat -> nat

  /** `struct lthread_mutex`, the lthreads in its queue, and those woken but not yet resumed.  `owner` is
      an id, as in the source.  `holder` is the lthread that acquired the mutex last, and `depth` counts
      the calls of lock not undone yet, by lthread; no step reads either. */
  datatype Mutex = Mutex(locked: nat, owner: nat, waiters: seq<nat>, woken: set<nat>,
                         holder: nat, depth: map<nat, nat>)

  datatype Call = Lock(lt: nat) | Unlock(lt: nat) | Wake(lt: nat) | Timeout(lt: nat)

  function Depth(m: Mutex, i: nat): nat {
    if i in m.depth then m.depth[i] else 0
  }

  function Deeper(m: Mutex, i: nat): map<nat, nat> {
    m.depth[i := Depth(m, i) + 1]
  }

  function Acquire(id: Ids, m: Mutex, i: nat): Mutex {
    m.(locked := 1, owner := id(i), holder := i, depth := Deeper(m, i))
  }

  /** The loop of `lthread_mutex_lock`, from its test to the next wait. */
  function Try(id: Ids, m: Mutex, i: nat): Mutex {
    if m.locked > 0 then m.(waiters := m.waiters + [i]) else Acquire(id, m, i)
  }

  function LockStep(id: Ids, m: Mutex, i: nat): Mutex {
    if m.locked > 0 && m.owner == id(i) then m.(locked := m.locked + 1, depth := Deeper(m, i)) else Try(id, m, i)
  }

  /** `lthread_mutex_unlock`: only a message tells an owner from another lthread. */
  function UnlockStep(m: Mutex, i: nat): Mutex {
    if m.locked == 0 then m
    else
      m.(locked := m.locked - 1, waiters := [], woken := m.woken + (set w | w in m.waiters),
         depth := if Depth(m, i) > 0 then m.depth[i := Depth(m, i) - 1] else m.depth)
  }

  function Next(id: Ids, m: Mutex, c: Call): Mutex {
    match c
    case Lock(i) => LockStep(id, m, i)
    case Unlock(i) => UnlockStep(m, i)
    case Wake(i) => Try(id, m.(woken := m.woken - {i}), i)
    case Timeout(i) => Try(id, m.(waiters := Remove(m.waiters, i)), i)
  }

  predicate Blocked(m: Mutex, i: nat) {
    i in m.waiters || i in m.woken
  }

  /** A blocked lthread makes no calls; it is resumed by a wake-up or its timer. */
  predicate Enabled(m: Mutex, c: Call) {
    match c
    case Lock(i) => !Blocked(m, i)
    case Unlock(i) => !Blocked(m, i)
    case Wake(i) => i in m.woken
    case Timeout(i) => i in m.waiters
  }

  /** An unlock by the holder, or of an unlocked mutex. */
  predicate ByHolder(m: Mutex, c: Call) {
    c.Unlock? ==> m.locked == 0 || m.holder == c.lt
  }

  /** No lock by another lthread with the id of the holder. */
  predicate OwnId(id: Ids, m: Mutex, c: Call) {
    c.Lock? ==> !(m.locked > 0 && m.holder != c.lt && id(m.holder) == id(c.lt))
  }

  predicate Proper(id: Ids, m: Mutex, c: Call) {
    ByHolder(m, c) && OwnId(id, m, c)
  }

  /** How deep the lthread `i` is when `holder` alone has the mutex, `locked` times. */
  function Share(m: Mutex, i: nat): nat {
    if m.locked > 0 && i == m.holder then m.locked else 0
  }

  /** The count is the holder's depth and nobody else has the mutex; whoever waits has somebody to wake
      it. */
  ghost predicate Inv(id: Ids, m: Mutex) {
    && (forall i :: Depth(m, i) == Share(m, i))
    && (m.locked > 0 ==> m.owner == id(m.holder) && !Blocked(m, m.holder))
    && (m.waiters != [] ==> m.locked > 0)
    && NoDup(m.waiters) && (forall i :: i in m.waiters ==> i !in m.woken)
  }

  lemma TryKeeps(id: Ids, m: Mutex, i: nat)
    requires Inv(id, m) && !Blocked(m, i) && !(m.locked > 0 && i == m.holder)
    ensures Inv(id, Try(id, m, i))
  {
    var m' := Try(id, m, i);
    forall j ensures Depth(m', j) == Share(m', j) {
      assert Depth(m, j) == Share(m, j);
    }
    if m.locked > 0 {
      NoDupAppend(m.waiters, i);
    }
  }

  /** A lock keeps all this exactly when the caller does not share its id with another holder. */
  lemma LockIsProper(id: Ids, m: Mutex, i: nat)
    requires Inv(id, m) && !Blocked(m, i)
    ensures Inv(id, LockStep(id, m, i)) <==> !(m.locked > 0 && m.holder != i && id(m.holder) == id(i))
  {
    var m' := LockStep(id, m, i);
    assert Depth(m, i) == Share(m, i);
    if m.locked > 0 && id(m.holder) == id(i) {
      if m.holder == i {
        forall j ensures Depth(m', j) == Share(m', j) {
          assert Depth(m, j) == Share(m, j);
        }
      } else {
        assert Depth(m', i) == 1 && Share(m', i) == 0;
      }
    } else {
      TryKeeps(id, m, i);
    }
  }

  /** An unlock keeps all this exactly when it is the holder's, or the mutex is not locked. */
  lemma UnlockIsProper(id: Ids, m: Mutex, i: nat)
    requires Inv(id, m)
    ensures Inv(id, UnlockStep(m, i)) <==> m.locked == 0 || m.holder == i
  {
    var m' := UnlockStep(m, i);
    assert Depth(m, i) == Share(m, i) && Depth(m, m.holder) == Share(m, m.holder);
    if m.locked > 0 {
      if m.holder == i {
        forall j ensures Depth(m', j) == Share(m', j) {
          assert Depth(m, j) == Share(m, j);
        }
      } else {
        assert Depth(m', m.holder) == m.locked;
      }
    }
  }

  /** A woken lthread, by a wake-up or by its timer, tries again. */
  lemma ResumeKeeps(id: Ids, m: Mutex, c: Call)
    requires Inv(id, m) && Enabled(m, c) && (c.Wake? || c.Timeout?)
    ensures Inv(id, Next(id, m, c))
  {
    var m' := if c.Wake? then m.(woken := m.woken - {c.lt}) else m.(waiters := Remove(m.waiters, c.lt));
    forall j ensures Depth(m', j) == Share(m', j) {
      assert Depth(m, j) == Share(m, j);
    }
    TryKeeps(id, m', c.lt);
  }

  /** Of all steps exactly these two kinds break it: an unlock by another lthread than the holder, and a
      lock by another lthread with the holder's id. */
  lemma StepIsProper(id: Ids, m: Mutex, c: Call)
    requires Inv(id, m) && Enabled(m, c)
    ensures Inv(id, Next(id, m, c)) <==> Proper(id, m, c)
  {
    match c
    case Lock(i) => LockIsProper(id, m, i);
    case Unlock(i) => UnlockIsProper(id, m, i);
    case Wake(_) => ResumeKeeps(id, m, c);
    case Timeout(_) => ResumeKeeps(id, m, c);
  }

  /* ---------- Runs ---------- */

  /** A new mutex. */
  function Start(): Mutex {
    Mutex(0, 0, [], {}, 0, map[])
  }

  function Exec(id: Ids, ops: seq<Call>): Mutex {
    if ops == [] then Start() else Next(id, Exec(id, ops[..|ops| - 1]), ops[|ops| - 1])
  }

  /** Each call is made by an lthread that can make it. */
  predicate Possible(id: Ids, ops: seq<Call>) {
    ops == [] || (Possible(id, ops[..|ops| - 1]) && Enabled(Exec(id, ops[..|ops| - 1]), ops[|ops| - 1]))
  }

  /** Only holders unlock. */
  predicate HoldersUnlock(id: Ids, ops: seq<Call>) {
    ops == [] || (HoldersUnlock(id, ops[..|ops| - 1]) && ByHolder(Exec(id, ops[..|ops| - 1]), ops[|ops| - 1]))
  }

  ghost predicate Uses(ops: seq<Call>, i: nat) {
    exists k :: 0 <= k < |ops| && ops[k].lt == i
  }

  /** The lthreads that use the mutex have different ids. */
  ghost predicate DistinctIds(id: Ids, ops: seq<Call>) {
    forall i, j :: Uses(ops, i) && Uses(ops, j) && id(i) == id(j) ==> i == j
  }

  lemma UsesMore(ops: seq<Call>, c: Call, i: nat)
    ensures Uses(ops + [c], i) <==> Uses(ops, i) || c.lt == i
  {
    if Uses(ops, i) {
      var k :| 0 <= k < |ops| && ops[k].lt == i;
      assert (ops + [c])[k] == ops[k];
    }
    assert (ops + [c])[|ops|] == c;
  }

  lemma {:induction false} HolderUses(id: Ids, ops: seq<Call>)
    ensures Exec(id, ops).locked > 0 ==> Uses(ops, Exec(id, ops).holder)
  {
    if ops == [] {
    } else {
      var rest, c := ops[..|ops| - 1], ops[|ops| - 1];
      HolderUses(id, rest);
      assert ops == rest + [c];
      UsesMore(rest, c, Exec(id, ops).holder);
    }
  }

  lemma {:induction false} RunsKeepInv(id: Ids, ops: seq<Call>)
    requires Possible(id, ops) && HoldersUnlock(id, ops) && DistinctIds(id, ops)
    ensures Inv(id, Exec(id, ops))
  {
    if ops == [] {
    } else {
      var rest, c := ops[..|ops| - 1], ops[|ops| - 1];
      assert ops == rest + [c];
      forall i ensures Uses(ops, i) <==> Uses(rest, i) || c.lt == i {
        UsesMore(rest, c, i);
      }
      RunsKeepInv(id, rest);
      HolderUses(id, rest);
      StepIsProper(id, Exec(id, rest), c);
    }
  }

  /** Mutual exclusion in every run, the count is the holder's depth, and no wake-up is lost. */
  lemma MutualExclusion(id: Ids, ops: seq<Call>, i: nat, j: nat)
    requires Possible(id, ops) && HoldersUnlock(id, ops) && DistinctIds(id, ops)
    ensures var m := Exec(id, ops);
            && (Depth(m, i) > 0 && Depth(m, j) > 0 ==> i == j == m.holder && m.locked == Depth(m, i))
            && (m.locked > 0 ==> m.owner == id(m.holder))
            && m.locked == Depth(m, m.holder) && (m.waiters != [] ==> Depth(m, m.holder) > 0)
  {
    RunsKeepInv(id, ops);
    var m := Exec(id, ops);
    assert Depth(m, i) == Share(m, i) && Depth(m, j) == Share(m, j) && Depth(m, m.holder) == Share(m, m.holder);
  }

  /** Any two lthreads with one id hold the mutex at once, after one lock each and no unlock. */
  lemma SameIdsShare(id: Ids, i: nat, j: nat)
    requires i != j && id(i) == id(j)
    ensures var ops := [Lock(i), Lock(j)];
            && Possible(id, ops) && HoldersUnlock(id, ops)
            && Depth(Exec(id, ops), i) == 1 && Depth(Exec(id, ops), j) == 1
  {
    var one, ops := [Lock(i)], [Lock(i), Lock(j)];
    assert one[..0] == [] && ops[..1] == one;
    assert Exec(id, []) == Start() && Exec(id, one) == LockStep(id, Start(), i);
    assert Possible(id, []) && Possible(id, one) && HoldersUnlock(id, []) && HoldersUnlock(id, one);
  }

  /** Lthread 2 unlocks what lthread 1 has locked: then both have it, whatever their ids. */
  lemma StrangerUnlocks(id: Ids)
    ensures var m := LockStep(id, UnlockStep(LockStep(id, Start(), 1), 2), 2); Depth(m, 1) == 1 && Depth(m, 2) == 1
  {
  }

  /* ---------- Where ids come from ---------- */

  const TWO31: nat := 0x8000_0000
  const TWO32: nat := 0x1_0000_0000

  /** How many of the first `n` lthreads were created on scheduler `h`: its `spawned_lthreads`, an `int`. */
  function Spawned(home: nat -> nat, h: nat, n: nat): nat {
    if n == 0 then 0 else Spawned(home, h, n - 1) + if home(n - 1) == h then 1 else 0
  }

  /** The `int` counter as the 64-bit id: it wraps, and its sign is extended. */
  function Widened(n: nat): nat {
    var w := n % TWO32;
    if w < TWO31 then w else w + TWO32 * (TWO32 - 1)
  }

  /** The id that `lthread_create` gives to lthread `i` when `home` says where each is created. */
  function IdOf(home: nat -> nat, i: nat): nat {
    Widened(Spawned(home, home(i), i))
  }

  function IdsOf(home: nat -> nat): Ids {
    i => IdOf(home, i)
  }

  lemma {:induction false} SpawnedGrows(home: nat -> nat, h: nat, a: nat, b: nat)
    requires a <= b
    ensures Spawned(home, h, a) <= Spawned(home, h, b)
    ensures a < b && home(a) == h ==> Spawned(home, h, a) < Spawned(home, h, b)
    decreases b - a
  {
    if a == b {
    } else {
      SpawnedGrows(home, h, a + 1, b);
    }
  }

  lemma WidenedDiffer(a: nat, b: nat)
    ensures Widened(a) == Widened(b) <==> a % TWO32 == b % TWO32
  {
  }

  lemma SmallRemainders(a: nat, b: nat)
    requires a < TWO32 && b < TWO32 && a % TWO32 == b % TWO32
    ensures a == b
  {
  }

  /** Two lthreads of one scheduler have the same id exactly when a multiple of 2^32 lthreads lies between
      them, so of its first 2^32 no two have. */
  lemma IdsOnOneScheduler(home: nat -> nat, i: nat, j: nat)
    requires home(i) == home(j)
    ensures var a, b := Spawned(home, home(i), i), Spawned(home, home(j), j);
            (IdOf(home, i) == IdOf(home, j) <==> a % TWO32 == b % TWO32) && (a == b <==> i == j)
  {
    WidenedDiffer(Spawned(home, home(i), i), Spawned(home, home(j), j));
    if i < j {
      SpawnedGrows(home, home(i), i, j);
    } else if j < i {
      SpawnedGrows(home, home(i), j, i);
    }
  }

  lemma SmallIds(home: nat -> nat, i: nat, j: nat)
    requires home(i) == home(j) && IdOf(home, i) == IdOf(home, j)
    requires Spawned(home, home(i), i) < TWO32 && Spawned(home, home(j), j) < TWO32
    ensures i == j
  {
    IdsOnOneScheduler(home, i, j);
    SmallRemainders(Spawned(home, home(i), i), Spawned(home, home(j), j));
  }

  /** The mutex excludes the lthreads of one scheduler, its first 2^32. */
  lemma ExclusiveOnOneScheduler(home: nat -> nat, h: nat, ops: seq<Call>, i: nat, j: nat)
    requires Possible(IdsOf(home), ops) && HoldersUnlock(IdsOf(home), ops)
    requires forall k :: Uses(ops, k) ==> home(k) == h && Spawned(home, h, k) < TWO32
    requires Depth(Exec(IdsOf(home), ops), i) > 0 && Depth(Exec(IdsOf(home), ops), j) > 0
    ensures i == j
  {
    var id := IdsOf(home);
    forall a, b | Uses(ops, a) && Uses(ops, b) && id(a) == id(b) ensures a == b {
      SmallIds(home, a, b);
    }
    MutualExclusion(id, ops, i, j);
  }

  /** The lthreads created in the same place on two schedulers, as the first on each, hold the mutex both. */
  lemma SharedByTwoSchedulers(home: nat -> nat, i: nat, j: nat)
    requires home(i) != home(j) && Spawned(home, home(i), i) == Spawned(home, home(j), j)
    ensures var ops := [Lock(i), Lock(j)];
            && Possible(IdsOf(home), ops) && HoldersUnlock(IdsOf(home), ops)
            && Depth(Exec(IdsOf(home), ops), i) == 1 && Depth(Exec(IdsOf(home), ops), j) == 1
  {
    SameIdsShare(IdsOf(home), i, j);
  }
}
