/** The sleeping set of a scheduler, src/lthread_sched.c: choosing a deadline, and waking what is
    due.  Times are microseconds since the scheduler's birth. */
module Timers {
  import Arith

  /** Who sleeps until when; a red-black tree keyed by the deadline. */
  type Sleepers = map<nat, nat>

  ghost predicate Distinct(m: Sleepers) {
    forall i, j :: i in m && j in m && m[i] == m[j] ==> i == j
  }

  predicate Taken(m: Sleepers, d: nat) {
    exists i :: i in m && m[i] == d
  }

  /** The first deadline at or after `from` that nobody has. */
  ghost predicate IsFirstFree(m: Sleepers, from: nat, d: nat) {
    from <= d && !Taken(m, d) && forall e :: from <= e < d ==> Taken(m, e)
  }

  ghost function Due(m: Sleepers, now: nat): set<nat> {
    set i | i in m && m[i] <= now
  }

  /** What the lthreads that run during a pass may do to the set: take some out, and put some in with
      deadlines after the pass began. */
  ghost predicate OnlyLater(m: Sleepers, m': Sleepers, now: nat) {
    Distinct(m') && forall i :: i in m' ==> (i in m && m'[i] == m[i]) || m'[i] > now
  }

  ghost predicate IsMin(m: Sleepers, i: nat) {
    i in m && forall j :: j in m ==> m[i] <= m[j]
  }

  /** The sleepers not looked at yet, at or after `d`. */
  ghost function From(m: Sleepers, d: nat): set<nat> {
    set i | i in m && m[i] >= d
  }

  lemma FromShrinks(m: Sleepers, d: nat, i: nat)
    requires i in m && m[i] == d
    ensures |From(m, d + 1)| < |From(m, d)|
  {
    assert i in From(m, d) && From(m, d + 1) <= From(m, d) - {i};
    Arith.SubsetSize(From(m, d + 1), From(m, d) - {i});
  }

  /** A sleep that starts during the pass is not due in it. */
  lemma SleepIsLater(m: Sleepers, i: nat, now: nat, clock: nat, msecs: nat, d: nat)
    requires Distinct(m) && i !in m && now <= clock && msecs >= 1 && IsFirstFree(m, clock + 1000 * msecs, d)
    ensures OnlyLater(m, m[i := d], now)
  {
  }

  lemma {:induction false} HasMin(m: Sleepers) returns (i: nat)
    requires m != map[]
    ensures IsMin(m, i)
    decreases |m|
  {
    var x :| x in m;
    var rest := m - {x};
    if rest == map[] {
      assert forall j :: j in m ==> j == x || j in rest;
      i := x;
    } else {
      assert m.Keys == rest.Keys + {x};
      i := HasMin(rest);
      assert forall j :: j in m ==> j == x || j in rest;
      if m[x] < m[i] {
        i := x;
      }
    }
  }

  /** What an lthread does to the set while it runs: it puts itself to sleep, or somebody, `late`
      microseconds after the pass began, or takes a timer away, as `lthread_cond_signal` does. */
  datatype Action = Sleep(lt: nat, late: nat, msecs: nat) | Cancel(lt: nat)

  ghost function FirstFree(m: Sleepers, from: nat): (d: nat)
    ensures IsFirstFree(m, from, d)
    decreases |From(m, from)|
  {
    if Taken(m, from) then
      var i :| i in m && m[i] == from;
      FromShrinks(m, from, i);
      FirstFree(m, from + 1)
    else from
  }

  lemma FirstFreeUnique(m: Sleepers, from: nat, d: nat, d': nat)
    requires IsFirstFree(m, from, d) && IsFirstFree(m, from, d')
    ensures d == d'
  {
  }

  /** An lthread that sleeps already does not run, so it cannot sleep again. */
  ghost function Act(m: Sleepers, a: Action, now: nat): Sleepers {
    match a
    case Sleep(lt, late, msecs) =>
      if msecs == 0 || lt in m then m else m[lt := FirstFree(m, now + late + 1000 * msecs)]
    case Cancel(lt) => m - {lt}
  }

  ghost function ActAll(m: Sleepers, acts: seq<Action>, now: nat): Sleepers {
    if acts == [] then m else Act(ActAll(m, acts[..|acts| - 1], now), acts[|acts| - 1], now)
  }

  /** Whatever an lthread does, no deadline it sets is due in the pass that woke it. */
  lemma {:induction false} ActsSetLater(m: Sleepers, acts: seq<Action>, now: nat)
    requires Distinct(m)
    ensures OnlyLater(m, ActAll(m, acts, now), now)
  {
    if acts == [] {
    } else {
      var m' := ActAll(m, acts[..|acts| - 1], now);
      ActsSetLater(m, acts[..|acts| - 1], now);
      ActSetsLater(m', acts[|acts| - 1], now);
    }
  }

  lemma ActSetsLater(m: Sleepers, a: Action, now: nat)
    requires Distinct(m)
    ensures OnlyLater(m, Act(m, a, now), now)
  {
    if a.Sleep? && a.msecs > 0 && a.lt !in m {
      SleepIsLater(m, a.lt, now, now + a.late, a.msecs, FirstFree(m, now + a.late + 1000 * a.msecs));
    }
  }

  /** What each lthread does when it is woken, and finds the set as it is. */
  type Behaviour = (nat, Sleepers) -> seq<Action>

  ghost predicate OnlyOwn(acts: seq<Action>, i: nat) {
    forall a :: a in acts && a.Cancel? ==> a.lt == i
  }

  /** Nobody takes another's timer away. */
  ghost predicate KeepsOthers(run: Behaviour) {
    forall i, m :: OnlyOwn(run(i, m), i)
  }

  lemma {:induction false} OthersStay(m: Sleepers, acts: seq<Action>, now: nat, i: nat, j: nat)
    requires OnlyOwn(acts, i) && j in m && j != i
    ensures j in ActAll(m, acts, now) && ActAll(m, acts, now)[j] == m[j]
  {
    if acts == [] {
    } else {
      assert acts[|acts| - 1] in acts;
      assert forall a :: a in acts[..|acts| - 1] ==> a in acts;
      OthersStay(m, acts[..|acts| - 1], now, i, j);
    }
  }

  /** Woken in the order of their deadlines, each with the deadline it had, none early. */
  ghost predicate WokenInOrder(m: Sleepers, now: nat, woken: seq<nat>) {
    && (forall a :: 0 <= a < |woken| ==> woken[a] in m && m[woken[a]] <= now)
    && (forall a, b :: 0 <= a < b < |woken| ==> m[woken[a]] < m[woken[b]])
  }

  /** The state of a pass: `cur` holds old deadlines after those already woken, and new ones after `now`. */
  ghost predicate Passing(m: Sleepers, cur: Sleepers, now: nat, woken: seq<nat>) {
    && Distinct(cur) && WokenInOrder(m, now, woken)
    && (forall i :: i in cur ==> (i in m && cur[i] == m[i]) || cur[i] > now)
    && (forall i :: i in cur && cur[i] <= now ==> forall a :: 0 <= a < |woken| ==> m[woken[a]] < cur[i])
  }

  /** Each due one was woken or is still there, if nobody takes another's timer away. */
  ghost predicate NoneLost(m: Sleepers, cur: Sleepers, now: nat, woken: seq<nat>) {
    forall i :: i in m && m[i] <= now ==> i in woken || (i in cur && cur[i] == m[i])
  }

  lemma PassStep(m: Sleepers, cur: Sleepers, now: nat, woken: seq<nat>, i: nat, cur': Sleepers)
    requires Passing(m, cur, now, woken) && IsMin(cur, i) && cur[i] <= now && OnlyLater(cur - {i}, cur', now)
    ensures Passing(m, cur', now, woken + [i]) && Due(cur', now) < Due(cur, now)
  {
    assert i in Due(cur, now) && i !in Due(cur', now);
  }

  lemma PassLosesNone(m: Sleepers, cur: Sleepers, now: nat, woken: seq<nat>, i: nat, acts: seq<Action>)
    requires NoneLost(m, cur, now, woken) && i in cur && OnlyOwn(acts, i)
    ensures NoneLost(m, ActAll(cur - {i}, acts, now), now, woken + [i])
  {
    var rest := cur - {i};
    forall j | j in m && m[j] <= now && j != i && j !in woken
      ensures j in ActAll(rest, acts, now) && ActAll(rest, acts, now)[j] == m[j] {
      OthersStay(rest, acts, now, i, j);
    }
  }

  class Timers {
    var sleeping: Sleepers

    ghost predicate Valid()
      reads this
    {
      Distinct(sleeping)
    }

    /** The deadline `_lthread_sched_sleep` settles on. */
    method SchedSleep(lt: nat, clock: nat, msecs: nat)
      requires Valid() && lt !in sleeping
      modifies this
      ensures Valid()
      ensures msecs == 0 ==> sleeping == old(sleeping)
      ensures msecs > 0 ==> lt in sleeping && sleeping == old(sleeping)[lt := sleeping[lt]]
      ensures msecs > 0 ==> IsFirstFree(old(sleeping), clock + 1000 * msecs, sleeping[lt])
    {
      var d := clock + 1000 * msecs;
      if msecs == 0 {
        return;
      }
      while Taken(sleeping, d)
        invariant sleeping == old(sleeping)
        invariant clock + 1000 * msecs <= d && forall e :: clock + 1000 * msecs <= e < d ==> Taken(sleeping, e)
        decreases |From(sleeping, d)|
      {
        ghost var i :| i in sleeping && sleeping[i] == d;
        FromShrinks(sleeping, d, i);
        d := d + 1;
      }
      sleeping := sleeping[lt := d];
    }

    /** A woken lthread runs. */
    method Perform(acts: seq<Action>, now: nat)
      requires Valid()
      modifies this
      ensures Valid() && sleeping == ActAll(old(sleeping), acts, now)
    {
      var k := 0;
      assert acts[..0] == [];
      while k < |acts|
        invariant 0 <= k <= |acts| && Valid() && sleeping == ActAll(old(sleeping), acts[..k], now)
      {
        PerformOne(acts[k], now);
        assert acts[..k + 1][..k] == acts[..k];
        k := k + 1;
      }
      assert acts[..|acts|] == acts;
    }

    method PerformOne(a: Action, now: nat)
      requires Valid()
      modifies this
      ensures Valid() && sleeping == Act(old(sleeping), a, now)
    {
      match a
      case Sleep(lt, late, msecs) =>
        if lt !in sleeping {
          SchedSleep(lt, now + late, msecs);
          if msecs > 0 {
            var from := now + late + 1000 * msecs;
            FirstFreeUnique(old(sleeping), from, sleeping[lt], FirstFree(old(sleeping), from));
          }
        }
      case Cancel(lt) => sleeping := sleeping - {lt};
    }

    /** `_lthread_resume_expired`: each turn wakes the sleeper with the least deadline, if it is due.  The
        pass ends although woken lthreads may sleep again. */
    method ResumeExpired(now: nat, run: Behaviour) returns (woken: seq<nat>)
      requires Valid()
      modifies this
      ensures Valid() && Due(sleeping, now) == {}
      ensures WokenInOrder(old(sleeping), now, woken)
      ensures KeepsOthers(run) ==> forall i :: i in Due(old(sleeping), now) ==> i in woken
    {
      woken := [];
      while sleeping != map[]
        invariant Passing(old(sleeping), sleeping, now, woken)
        invariant KeepsOthers(run) ==> NoneLost(old(sleeping), sleeping, now, woken)
        decreases Due(sleeping, now)
      {
        var lt := Min();
        if sleeping[lt] > now {
          break;
        }
        var rest := sleeping - {lt};
        var acts := run(lt, rest);
        ActsSetLater(rest, acts, now);
        PassStep(old(sleeping), sleeping, now, woken, lt, ActAll(rest, acts, now));
        if KeepsOthers(run) {
          PassLosesNone(old(sleeping), sleeping, now, woken, lt, acts);
        }
        woken := woken + [lt];
        sleeping := rest;
        Perform(acts, now);
      }
    }

    /** `RB_MIN` of the sleeping tree. */
    method Min() returns (i: nat)
      requires sleeping != map[]
      ensures IsMin(sleeping, i)
    {
      ghost var w := HasMin(sleeping);
      i :| i in sleeping && forall j :: j in sleeping ==> sleeping[i] <= sleeping[j];
    }
  }
}
