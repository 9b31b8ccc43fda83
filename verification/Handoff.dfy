/** Schedulers, compute schedulers and the lthreads that move between them: src/lthread_sched.c,
    src/lthread_compute.c and the parts of src/lthread.c that suspend and resume.  Each step is a
    stretch of code that no other pthread can see the middle of: a section under one lock, or code
    that touches only what the pthread owns. */
module Handoff {
  import opened Basics

  /** Where the loop of a scheduler is: about to resume an lthread, running it, running its last
      instructions after `lthread_compute_begin` has queued it, back from it, letting a compute
      scheduler have it, or about to clear its LT_ST_EXPIRED bit. */
  datatype HomePc =
    Loop | Popped(lt: nat) | Running(lt: nat) | Leaving(lt: nat) | Back(lt: nat) | Adding(lt: nat) | Clearing(lt: nat)

  /** `struct lthread_sched` */
  datatype Home = Home(ready: seq<nat>, sleeping: set<nat>, waiting: set<nat>, busy: set<nat>, defer: seq<nat>,
                       pc: HomePc)

  datatype WorkerPc = Scan | Took(lt: nat) | Computing(lt: nat) | Done(lt: nat) | Parked | TimedOut | Gone

  /** `struct lthread_compute_sched`; `free` is LT_COMPUTE_FREE. */
  datatype Worker = Worker(queue: seq<nat>, free: bool, pc: WorkerPc)

  /** `cond` is the condition variable it waits for, when the LT_ST_BUSY bit is set; the others are
      bits of `lt->state`, and its two schedulers. */
  datatype Lthread = Lthread(home: nat, worker: nat, pending: bool, runCompute: bool, exited: bool, expired: bool,
                             cond: Option<nat>)

  /** Which structures hold an lthread.  No step reads it: it is there for the invariant. */
  datatype Place =
    | Queued
    | Blocked(timed: bool, event: bool)
    | OnHome
    | Handed
    | InQueue
    | OnWorker
    | Deferred
    | Exited

  /** `list` is `compute_scheds`. */
  datatype State = State(homes: map<nat, Home>, workers: map<nat, Worker>, list: seq<nat>,
                         lts: map<nat, Lthread>, conds: map<nat, seq<nat>>, at: map<nat, Place>)

  /** `TAILQ_REMOVE` */
  function Remove(q: seq<nat>, i: nat): (r: seq<nat>)
    ensures forall j :: j in r ==> j in q
    ensures forall j :: j in q && j != i ==> j in r
    ensures NoDup(q) ==> NoDup(r) && i !in r
  {
    if q == [] then []
    else
      var r := Remove(q[1..], i);
      assert q == [q[0]] + q[1..];
      assert NoDup(q) ==> q[0] !in q[1..];
      if q[0] == i then q[1..] else [q[0]] + r
  }

  function Mentions(pc: HomePc): set<nat> {
    if pc.Loop? then {} else {pc.lt}
  }

  function WorkerHolds(pc: WorkerPc): set<nat> {
    if pc.Took? || pc.Computing? || pc.Done? then {pc.lt} else {}
  }

  /* ---------- The invariant ---------- */

  /** What the structures of its own scheduler say of lthread `i`, by the place it is in. */
  ghost predicate HomeSide(h: Home, i: nat, lt: Lthread, p: Place) {
    && (i in h.ready <==> p == Queued)
    && (i in h.sleeping <==> p.Blocked? && p.timed)
    && (i in h.waiting <==> p.Blocked? && p.event)
    && (i in h.busy <==> lt.cond.Some? || p == InQueue || p == OnWorker || p == Deferred
                         || (p == Handed && h.pc == Adding(i)))
    && (i in h.defer <==> p == Deferred)
    && (h.pc == Popped(i) || h.pc == Running(i) <==> p == OnHome)
    && (h.pc == Leaving(i) || h.pc == Adding(i) ==> p == Handed)
    && (p == Handed ==> h.pc in {Leaving(i), Back(i), Adding(i)})
    && (h.pc == Back(i) ==> p in {Handed, Queued, Exited} || p.Blocked?)
    && (p.Blocked? ==> (p.timed || p.event || lt.cond.Some?) && (p.event ==> lt.cond.None?))
    && (lt.cond.Some? ==> p.Blocked? || p == Queued || h.pc == Popped(i))
    && (lt.expired && !lt.exited ==> i in Mentions(h.pc))
    && (lt.exited <==> p == Exited)
  }

  /** What the compute schedulers say of it. */
  ghost predicate WorkerSide(workers: map<nat, Worker>, list: seq<nat>, i: nat, lt: Lthread, p: Place) {
    && (lt.pending <==> p == Handed)
    && (lt.runCompute <==> p == InQueue || p == OnWorker)
    && (p == Handed || p == InQueue ==> lt.worker in workers && lt.worker in list && i in workers[lt.worker].queue)
    && (p == OnWorker ==> lt.worker in workers && i in WorkerHolds(workers[lt.worker].pc))
    && (forall k :: k in workers && i in workers[k].queue ==> k == lt.worker && (p == Handed || p == InQueue))
    && (forall k :: k in workers && i in WorkerHolds(workers[k].pc) ==> k == lt.worker && p == OnWorker)
  }

  /** What the condition variables say of it: an lthread that its timer has woken is still in the
      queue, and takes itself out as it resumes. */
  ghost predicate CondSide(conds: map<nat, seq<nat>>, i: nat, lt: Lthread, p: Place, pc: HomePc) {
    && (lt.cond.Some? && (p.Blocked? || (pc == Popped(i) && lt.expired)) ==>
          lt.cond.value in conds && i in conds[lt.cond.value])
    && (forall c :: c in conds && i in conds[c] ==>
          lt.cond == Some(c) && (p.Blocked? || (pc == Popped(i) && lt.expired)))
  }

  ghost predicate LtOk(s: State, i: nat) {
    && i in s.lts && i in s.at && s.lts[i].home in s.homes
    && var lt, h, p := s.lts[i], s.homes[s.lts[i].home], s.at[i];
    && HomeSide(h, i, lt, p) && WorkerSide(s.workers, s.list, i, lt, p) && CondSide(s.conds, i, lt, p, h.pc)
  }

  /** A scheduler holds only its own lthreads. */
  ghost predicate HomeOk(s: State, h: nat) {
    && h in s.homes
    && var m := s.homes[h];
    && NoDup(m.ready) && NoDup(m.defer)
    && (forall i :: i in m.ready || i in m.sleeping || i in m.waiting || i in m.busy || i in m.defer
                    || i in Mentions(m.pc)
          ==> i in s.lts && s.lts[i].home == h)
  }

  ghost predicate WorkerOk(s: State, k: nat) {
    && k in s.workers
    && var w := s.workers[k];
    && NoDup(w.queue) && (k in s.list <==> w.pc != Gone) && (w.pc == Gone ==> w.queue == [])
    && (forall i :: i in w.queue || i in WorkerHolds(w.pc) ==> i in s.lts)
  }

  ghost predicate Inv(s: State) {
    && s.at.Keys == s.lts.Keys
    && NoDup(s.list) && (forall k :: k in s.list ==> k in s.workers)
    && (forall i {:trigger LtOk(s, i)} :: i in s.lts ==> LtOk(s, i))
    && (forall h {:trigger HomeOk(s, h)} :: h in s.homes ==> HomeOk(s, h))
    && (forall k {:trigger WorkerOk(s, k)} :: k in s.workers ==> WorkerOk(s, k))
    && (forall c {:trigger CondOk(s, c)} :: c in s.conds ==> CondOk(s, c))
  }

  ghost predicate CondOk(s: State, c: nat) {
    c in s.conds && NoDup(s.conds[c]) && forall i :: i in s.conds[c] ==> i in s.lts
  }

  /* ---------- One lthread at a time ---------- */

  ghost predicate HomeBut(m: Home, m': Home, i: nat) {
    && (forall x :: x != i ==> (x in m.ready <==> x in m'.ready) && (x in m.defer <==> x in m'.defer))
    && m.sleeping - {i} == m'.sleeping - {i} && m.waiting - {i} == m'.waiting - {i} && m.busy - {i} == m'.busy - {i}
    && (m.pc == m'.pc || (Mentions(m.pc) <= {i} && Mentions(m'.pc) <= {i}))
    && NoDup(m'.ready) && NoDup(m'.defer)
  }

  ghost predicate WorkerBut(w: Worker, w': Worker, i: nat) {
    && (forall x :: x != i ==> (x in w.queue <==> x in w'.queue))
    && WorkerHolds(w.pc) - {i} == WorkerHolds(w'.pc) - {i}
    && NoDup(w'.queue) && (w'.pc == Gone ==> w'.queue == [])
  }

  ghost predicate QueueBut(q: seq<nat>, q': seq<nat>, i: nat) {
    NoDup(q') && forall x :: x != i ==> (x in q <==> x in q')
  }

  ghost predicate WorkersBut(workers: map<nat, Worker>, list: seq<nat>, workers': map<nat, Worker>, list': seq<nat>,
                             i: nat) {
    && workers.Keys <= workers'.Keys
    && (forall k :: k in workers ==> WorkerBut(workers[k], workers'[k], i) && (k in list <==> k in list'))
    && (forall k :: k in workers' && k !in workers ==> workers'[k].pc == Scan && workers'[k].queue in {[], [i]})
  }

  ghost predicate CondsBut(conds: map<nat, seq<nat>>, conds': map<nat, seq<nat>>, i: nat) {
    conds'.Keys == conds.Keys && forall c :: c in conds ==> QueueBut(conds[c], conds'[c], i)
  }

  ghost predicate LthreadsBut(s: State, s': State, i: nat) {
    && s.at.Keys == s.lts.Keys && s'.lts.Keys == s.lts.Keys + {i} == s'.at.Keys
    && (forall j :: j in s.lts && j != i ==> s'.lts[j] == s.lts[j] && s'.at[j] == s.at[j])
    && (i in s.lts ==> s'.lts[i].home == s.lts[i].home)
  }

  ghost predicate HomesBut(s: State, s': State, h: nat, i: nat) {
    && s'.homes.Keys == s.homes.Keys && h in s.homes && HomeBut(s.homes[h], s'.homes[h], i)
    && (forall h' :: h' in s.homes && h' != h ==> s'.homes[h'] == s.homes[h'])
  }

  /** `s` and `s'` differ at most in what they say of lthread `i`. */
  ghost predicate Differ(s: State, s': State, i: nat) {
    && LthreadsBut(s, s', i) && HomesBut(s, s', s'.lts[i].home, i)
    && WorkersBut(s.workers, s.list, s'.workers, s'.list, i) && CondsBut(s.conds, s'.conds, i)
    && NoDup(s'.list) && (forall k :: k in s'.list ==> k in s'.workers)
    && (forall k :: k in s'.workers ==> (k in s'.list <==> s'.workers[k].pc != Gone))
  }

  lemma OtherHomeSide(m: Home, m': Home, i: nat, j: nat, lt: Lthread, p: Place)
    requires HomeSide(m, j, lt, p) && HomeBut(m, m', i) && i != j
    ensures HomeSide(m', j, lt, p)
  {
    assert j in m.sleeping - {i} <==> j in m.sleeping;
    assert j in m'.sleeping - {i} <==> j in m'.sleeping;
    assert j in m.waiting - {i} <==> j in m.waiting;
    assert j in m'.waiting - {i} <==> j in m'.waiting;
    assert j in m.busy - {i} <==> j in m.busy;
    assert j in m'.busy - {i} <==> j in m'.busy;
  }

  lemma OtherHolds(a: set<nat>, b: set<nat>, i: nat, j: nat)
    requires a - {i} == b - {i} && i != j
    ensures j in a <==> j in b
  {
    assert j in a - {i} <==> j in a;
    assert j in b - {i} <==> j in b;
  }

  lemma OtherWorkerSide(workers: map<nat, Worker>, list: seq<nat>, workers': map<nat, Worker>, list': seq<nat>,
                        i: nat, j: nat, lt: Lthread, p: Place)
    requires WorkerSide(workers, list, j, lt, p) && WorkersBut(workers, list, workers', list', i) && i != j
    ensures WorkerSide(workers', list', j, lt, p)
  {
    forall k | k in workers
      ensures j in workers[k].queue <==> j in workers'[k].queue
      ensures j in WorkerHolds(workers[k].pc) <==> j in WorkerHolds(workers'[k].pc)
    {
      assert WorkerBut(workers[k], workers'[k], i);
      OtherHolds(WorkerHolds(workers[k].pc), WorkerHolds(workers'[k].pc), i, j);
    }
  }

  lemma OtherCondSide(conds: map<nat, seq<nat>>, conds': map<nat, seq<nat>>, pc: HomePc, pc': HomePc,
                      i: nat, j: nat, lt: Lthread, p: Place)
    requires CondSide(conds, j, lt, p, pc) && CondsBut(conds, conds', i) && i != j
    requires pc == pc' || (Mentions(pc) <= {i} && Mentions(pc') <= {i})
    ensures CondSide(conds', j, lt, p, pc')
  {
  }

  lemma OtherLthread(s: State, s': State, i: nat, j: nat)
    requires Differ(s, s', i) && j in s.lts && j != i && LtOk(s, j)
    ensures LtOk(s', j)
  {
    var lt, p := s.lts[j], s.at[j];
    var m, m' := s.homes[lt.home], s'.homes[lt.home];
    if lt.home == s'.lts[i].home {
      OtherHomeSide(m, m', i, j, lt, p);
    }
    OtherCondSide(s.conds, s'.conds, m.pc, m'.pc, i, j, lt, p);
    OtherWorkerSide(s.workers, s.list, s'.workers, s'.list, i, j, lt, p);
  }

  lemma HomeMembers(m: Home, m': Home, i: nat, x: nat)
    requires HomeBut(m, m', i) && x != i
    requires x in m'.ready || x in m'.sleeping || x in m'.waiting || x in m'.busy || x in m'.defer
             || x in Mentions(m'.pc)
    ensures x in m.ready || x in m.sleeping || x in m.waiting || x in m.busy || x in m.defer || x in Mentions(m.pc)
  {
    OtherHolds(m.sleeping, m'.sleeping, i, x);
    OtherHolds(m.waiting, m'.waiting, i, x);
    OtherHolds(m.busy, m'.busy, i, x);
  }

  lemma HomeStays(s: State, s': State, i: nat, h: nat)
    requires Differ(s, s', i) && h in s.homes && HomeOk(s, h)
    ensures HomeOk(s', h)
  {
    var m, m' := s.homes[h], s'.homes[h];
    forall x | x in m'.ready || x in m'.sleeping || x in m'.waiting || x in m'.busy || x in m'.defer
               || x in Mentions(m'.pc)
      ensures x in s'.lts && s'.lts[x].home == h
    {
      if x != i && h == s'.lts[i].home {
        HomeMembers(m, m', i, x);
      }
    }
  }

  lemma WorkerStays(s: State, s': State, i: nat, k: nat)
    requires Differ(s, s', i) && k in s'.workers && (k in s.workers ==> WorkerOk(s, k))
    ensures WorkerOk(s', k)
  {
    var w' := s'.workers[k];
    if k in s.workers {
      assert WorkerBut(s.workers[k], w', i);
      forall x | x in w'.queue || x in WorkerHolds(w'.pc) ensures x in s'.lts {
        if x != i {
          OtherHolds(WorkerHolds(s.workers[k].pc), WorkerHolds(w'.pc), i, x);
        }
      }
    }
  }

  lemma CondStays(s: State, s': State, i: nat, c: nat)
    requires Differ(s, s', i) && c in s.conds && CondOk(s, c)
    ensures CondOk(s', c)
  {
    assert QueueBut(s.conds[c], s'.conds[c], i);
  }

  lemma OtherLthreads(s: State, s': State, i: nat)
    requires Inv(s) && Differ(s, s', i) && LtOk(s', i)
    ensures forall j {:trigger LtOk(s', j)} :: j in s'.lts ==> LtOk(s', j)
  {
    forall j | j in s'.lts ensures LtOk(s', j) {
      if j != i {
        OtherLthread(s, s', i, j);
      }
    }
  }

  lemma OtherParts(s: State, s': State, i: nat)
    requires Inv(s) && Differ(s, s', i)
    ensures forall h {:trigger HomeOk(s', h)} :: h in s'.homes ==> HomeOk(s', h)
    ensures forall k {:trigger WorkerOk(s', k)} :: k in s'.workers ==> WorkerOk(s', k)
    ensures forall c {:trigger CondOk(s', c)} :: c in s'.conds ==> CondOk(s', c)
  {
    forall h | h in s'.homes ensures HomeOk(s', h) {
      HomeStays(s, s', i, h);
    }
    forall k | k in s'.workers ensures WorkerOk(s', k) {
      WorkerStays(s, s', i, k);
    }
    forall c | c in s'.conds ensures CondOk(s', c) {
      CondStays(s, s', i, c);
    }
  }

  /** A step that concerns one lthread keeps the invariant if it leaves that lthread in order. */
  lemma OneLthread(s: State, s': State, i: nat)
    requires Inv(s) && Differ(s, s', i) && LtOk(s', i)
    ensures Inv(s')
  {
    OtherLthreads(s, s', i);
    OtherParts(s, s', i);
  }
}
