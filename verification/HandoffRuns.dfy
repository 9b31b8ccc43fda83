/** The steps of schedulers, lthreads and compute schedulers, and what holds in every run of them. */
module HandoffRuns {
  import opened Basics
  import opened Handoff

  /* ---------- Steps ---------- */

  /** How a running lthread suspends itself. */
  datatype How = Yield | Sleep | EventWait(timed: bool) | CondWait(cond: nat, timed: bool) | Exit

  /** What a scheduler, or the lthread it runs, does next. */
  datatype Act =
    | Spawn(lt: nat)
    | PopReady
    | PopDefer
    | Expire(lt: nat)
    | Fire(lt: nat)
    | Resume
    | Suspend(how: How)
    | Signal(cond: nat)
    | ComputeBegin(worker: nat, created: bool)
    | Leave
    | AfterSwitch
    | Add
    | Clear

  /** What a compute scheduler, or the lthread it runs, does next. */
  datatype Work = Look | TakeUp | ComputeEnd | GiveBack | WakeUp(timeout: bool) | GiveUp

  datatype Step = AtHome(h: nat, act: Act) | AtWorker(k: nat, work: Work)

  /** Scheduler `h` and lthread `i` change. */
  function Upd(s: State, h: nat, m: Home, i: nat, lt: Lthread, p: Place): State {
    s.(homes := s.homes[h := m], lts := s.lts[i := lt], at := s.at[i := p])
  }

  /** Scheduler `h`, compute scheduler `k` and lthread `i` change. */
  function Both(s: State, h: nat, m: Home, k: nat, w: Worker, i: nat, lt: Lthread, p: Place): State {
    Upd(s, h, m, i, lt, p).(workers := s.workers[k := w])
  }

  /** `lthread_create`, called by a running lthread or before `lthread_run`. */
  function DoSpawn(s: State, h: nat, i: nat): State
    requires h in s.homes
  {
    var m := s.homes[h];
    Upd(s, h, m.(ready := m.ready + [i]), i, Lthread(h, 0, false, false, false, false, None), Queued)
  }

  /** Takes the first lthread off the ready queue. */
  function DoPopReady(s: State, h: nat): State
    requires h in s.homes && s.homes[h].ready != [] && s.homes[h].ready[0] in s.lts
  {
    var m := s.homes[h];
    var i := m.ready[0];
    Upd(s, h, m.(ready := m.ready[1..], pc := Popped(i)), i, s.lts[i], OnHome)
  }

  /** Takes the first lthread that came back from a compute scheduler. */
  function DoPopDefer(s: State, h: nat): State
    requires h in s.homes && s.homes[h].defer != [] && s.homes[h].defer[0] in s.lts
  {
    var m := s.homes[h];
    var i := m.defer[0];
    Upd(s, h, m.(defer := m.defer[1..], busy := m.busy - {i}, pc := Popped(i)), i, s.lts[i], OnHome)
  }

  /** A timer runs out, in `_lthread_resume_expired`. */
  function DoExpire(s: State, h: nat, i: nat): State
    requires h in s.homes && i in s.lts
  {
    var m := s.homes[h];
    Upd(s, h, m.(sleeping := m.sleeping - {i}, waiting := m.waiting - {i}, pc := Popped(i)), i,
        s.lts[i].(expired := true), OnHome)
  }

  /** The event an lthread waits for happens, in `lthread_run`. */
  function DoFire(s: State, h: nat, i: nat): State
    requires h in s.homes && i in s.lts
  {
    var m := s.homes[h];
    Upd(s, h, m.(sleeping := m.sleeping - {i}, waiting := m.waiting - {i}, pc := Popped(i)), i, s.lts[i], OnHome)
  }

  /** Resumes the lthread just taken.  One that was in `lthread_cond_wait` first takes itself off
      `busy`, and off the queue of the condition variable when its timer woke it. */
  function DoResume(s: State, h: nat, i: nat): State
    requires h in s.homes && i in s.lts
  {
    var m, lt := s.homes[h], s.lts[i];
    var conds := if lt.expired then Left(s.conds, lt.cond, i) else s.conds;
    var m' := m.(busy := if lt.cond.Some? then m.busy - {i} else m.busy, pc := Running(i));
    Upd(s, h, m', i, lt.(cond := None), OnHome)
      .(conds := conds)
  }

  /** The queues after `i` has left the queue of the condition variable it waits for. */
  function Left(conds: map<nat, seq<nat>>, c: Option<nat>, i: nat): map<nat, seq<nat>> {
    if c.Some? && c.value in conds then conds[c.value := Remove(conds[c.value], i)] else conds
  }

  function SuspendedHome(m: Home, i: nat, how: How): Home {
    var m' := m.(pc := Back(i));
    match how
    case Yield => m'.(ready := m.ready + [i])
    case Sleep => m'.(sleeping := m.sleeping + {i})
    case EventWait(timed) => m'.(waiting := m.waiting + {i}, sleeping := if timed then m.sleeping + {i} else m.sleeping)
    case CondWait(c, timed) => m'.(busy := m.busy + {i}, sleeping := if timed then m.sleeping + {i} else m.sleeping)
    case Exit => m'
  }

  function SuspendedLthread(lt: Lthread, how: How): Lthread {
    if how.CondWait? then lt.(cond := Some(how.cond)) else if how.Exit? then lt.(exited := true) else lt
  }

  function SuspendedPlace(how: How): Place {
    match how
    case Yield => Queued
    case Sleep => Blocked(true, false)
    case EventWait(timed) => Blocked(timed, true)
    case CondWait(c, timed) => Blocked(timed, false)
    case Exit => Exited
  }

  /** The running lthread gives up the processor. */
  function DoSuspend(s: State, h: nat, i: nat, how: How): State
    requires h in s.homes && i in s.lts && (how.CondWait? ==> how.cond in s.conds)
  {
    Upd(s, h, SuspendedHome(s.homes[h], i, how), i, SuspendedLthread(s.lts[i], how), SuspendedPlace(how))
      .(conds := if how.CondWait? then s.conds[how.cond := s.conds[how.cond] + [i]] else s.conds)
  }

  /** `lthread_cond_signal`: the first waiter leaves the sleeping set of its own scheduler, and becomes
      ready on the scheduler of the caller. */
  function DoSignal(s: State, h: nat, c: nat): State
    requires h in s.homes && c in s.conds && s.conds[c] != []
    requires s.conds[c][0] in s.lts && s.lts[s.conds[c][0]].home in s.homes
  {
    var i := s.conds[c][0];
    var g := s.lts[i].home;
    var homes := s.homes[g := s.homes[g].(sleeping := s.homes[g].sleeping - {i})];
    s.(homes := homes[h := homes[h].(ready := homes[h].ready + [i])], at := s.at[i := Queued],
       conds := s.conds[c := s.conds[c][1..]])
  }

  /** The `_switch` at the end of `lthread_compute_begin`. */
  function DoLeave(s: State, h: nat, i: nat): State
    requires h in s.homes && i in s.lts && i in s.at
  {
    Upd(s, h, s.homes[h].(pc := Back(i)), i, s.lts[i], s.at[i])
  }

  /** `_lthread_resume` after the switch. */
  function DoAfterSwitch(s: State, h: nat, i: nat): State
    requires h in s.homes && i in s.lts && i in s.at
  {
    var m, lt := s.homes[h], s.lts[i];
    if lt.exited then Upd(s, h, m.(pc := Loop), i, lt, s.at[i])
    else if lt.pending then Upd(s, h, m.(busy := m.busy + {i}, pc := Adding(i)), i, lt, s.at[i])
    else Upd(s, h, m.(pc := Clearing(i)), i, lt, s.at[i])
  }

  /** The locked section of `_lthread_compute_add`. */
  function DoAdd(s: State, h: nat, i: nat): State
    requires h in s.homes && i in s.lts
  {
    Upd(s, h, s.homes[h].(pc := Clearing(i)), i, s.lts[i].(pending := false, runCompute := true), InQueue)
  }

  /** `_lthread_resume_expired` clears the bit it set. */
  function DoClear(s: State, h: nat, i: nat): State
    requires h in s.homes && i in s.lts && i in s.at
  {
    Upd(s, h, s.homes[h].(pc := Loop), i, s.lts[i].(expired := false), s.at[i])
  }

  /** The first compute scheduler marked free, in the search of `lthread_compute_begin`. */
  function FirstFree(workers: map<nat, Worker>, list: seq<nat>): (r: Option<nat>)
    ensures r.Some? ==> r.value in list && r.value in workers
  {
    if list == [] then None
    else if list[0] in workers && workers[list[0]].free then Some(list[0])
    else FirstFree(workers, list[1..])
  }

  /** A new compute scheduler; `calloc` leaves it marked busy. */
  function WithWorker(s: State, k: nat): State {
    s.(workers := s.workers[k := Worker([], false, Scan)], list := [k] + s.list)
  }

  /** Lthread `i` is queued on `k` while it still runs. */
  function Queue(s: State, h: nat, i: nat, k: nat): State
    requires h in s.homes && i in s.lts && k in s.workers
  {
    var w := s.workers[k];
    Both(s, h, s.homes[h].(pc := Leaving(i)), k, w.(queue := w.queue + [i]), i,
         s.lts[i].(worker := k, pending := true), Handed)
  }

  /** `lthread_compute_begin` up to the switch: a free compute scheduler, else a new one, else the
      first of the list.  With none at all it fails and the lthread runs on. */
  function DoComputeBegin(s: State, h: nat, i: nat, k: nat, created: bool): State
    requires h in s.homes && i in s.lts && (forall k' :: k' in s.list ==> k' in s.workers)
  {
    var free := FirstFree(s.workers, s.list);
    if free.Some? then Queue(s, h, i, free.value)
    else if created then Queue(WithWorker(s, k), h, i, k)
    else if s.list != [] then assert s.list[0] in s.list; Queue(s, h, i, s.list[0])
    else s
  }

  /** A compute scheduler looks at its queue. */
  function DoScan(s: State, k: nat): State
    requires k in s.workers && forall i :: i in s.workers[k].queue ==> i in s.lts && s.lts[i].home in s.homes
  {
    var w := s.workers[k];
    if w.queue == [] then s.(workers := s.workers[k := w.(pc := Parked)])
    else
      var i := w.queue[0];
      if s.lts[i].pending then s
      else
        var h := s.lts[i].home;
        Both(s, h, s.homes[h], k, w.(queue := w.queue[1..], pc := Took(i)), i, s.lts[i], OnWorker)
  }

  /** The worker's own moves with an lthread in hand. */
  function DoWorkerPc(s: State, k: nat, pc: WorkerPc, free: bool): State
    requires k in s.workers
  {
    s.(workers := s.workers[k := s.workers[k].(pc := pc, free := free)])
  }

  /** The lthread goes back to its scheduler, under the lock of `defer`. */
  function DoDefer(s: State, k: nat, i: nat): State
    requires k in s.workers && i in s.lts && s.lts[i].home in s.homes
  {
    var h := s.lts[i].home;
    var m := s.homes[h];
    Both(s, h, m.(defer := m.defer + [i]), k, s.workers[k].(pc := Scan), i, s.lts[i].(runCompute := false), Deferred)
  }

  /** Sixty seconds without work: under both locks, leave the list unless something is queued. */
  function DoWorkerTimeout(s: State, k: nat): State
    requires k in s.workers
  {
    if s.workers[k].queue == [] then s.(workers := s.workers[k := s.workers[k].(pc := Gone)], list := Remove(s.list, k))
    else s.(workers := s.workers[k := s.workers[k].(pc := Scan)])
  }

  /* ---------- Steps of a scheduler and the lthread it runs ---------- */

  lemma SameWorkers(s: State, i: nat)
    requires Inv(s)
    ensures WorkersBut(s.workers, s.list, s.workers, s.list, i)
    ensures NoDup(s.list) && (forall k :: k in s.list ==> k in s.workers)
    ensures forall k :: k in s.workers ==> (k in s.list <==> s.workers[k].pc != Gone)
  {
    forall k | k in s.workers
      ensures WorkerBut(s.workers[k], s.workers[k], i) && (k in s.list <==> s.workers[k].pc != Gone) {
      assert WorkerOk(s, k);
    }
  }

  lemma SameConds(s: State, i: nat)
    requires Inv(s)
    ensures CondsBut(s.conds, s.conds, i)
  {
    forall c | c in s.conds ensures QueueBut(s.conds[c], s.conds[c], i) {
      assert CondOk(s, c);
    }
  }

  lemma SameHome(s: State, h: nat, i: nat)
    requires Inv(s) && h in s.homes
    ensures HomeBut(s.homes[h], s.homes[h], i)
  {
    assert HomeOk(s, h);
  }

  lemma UpdDiffers(s: State, h: nat, m: Home, i: nat, lt: Lthread, p: Place)
    requires s.at.Keys == s.lts.Keys && h in s.homes && lt.home == h && (i in s.lts ==> s.lts[i].home == h)
    requires HomeBut(s.homes[h], m, i)
    ensures LthreadsBut(s, Upd(s, h, m, i, lt, p), i) && HomesBut(s, Upd(s, h, m, i, lt, p), h, i)
  {
  }

  /** A step inside scheduler `h`, about its lthread `i`. */
  lemma HomeStep(s: State, h: nat, m: Home, i: nat, lt: Lthread, p: Place)
    requires Inv(s) && h in s.homes && lt.home == h && (i in s.lts ==> s.lts[i].home == h)
    requires HomeBut(s.homes[h], m, i) && HomeSide(m, i, lt, p)
    requires WorkerSide(s.workers, s.list, i, lt, p) && CondSide(s.conds, i, lt, p, m.pc)
    ensures Inv(Upd(s, h, m, i, lt, p))
  {
    var s' := Upd(s, h, m, i, lt, p);
    assert Differ(s, s', i) by {
      SameWorkers(s, i);
      SameConds(s, i);
      UpdDiffers(s, h, m, i, lt, p);
    }
    assert LtOk(s', i);
    OneLthread(s, s', i);
  }

  /** The same, with a change in the queues of condition variables. */
  lemma HomeCondStep(s: State, h: nat, m: Home, i: nat, lt: Lthread, p: Place, conds: map<nat, seq<nat>>)
    requires Inv(s) && h in s.homes && lt.home == h && (i in s.lts ==> s.lts[i].home == h)
    requires HomeBut(s.homes[h], m, i) && HomeSide(m, i, lt, p) && CondsBut(s.conds, conds, i)
    requires WorkerSide(s.workers, s.list, i, lt, p) && CondSide(conds, i, lt, p, m.pc)
    ensures Inv(Upd(s, h, m, i, lt, p).(conds := conds))
  {
    var s' := Upd(s, h, m, i, lt, p).(conds := conds);
    assert Differ(s, s', i) by {
      SameWorkers(s, i);
      UpdDiffers(s, h, m, i, lt, p);
    }
    assert LtOk(s', i);
    OneLthread(s, s', i);
  }

  /** What the invariant says of one lthread. */
  lemma Know(s: State, i: nat)
    requires Inv(s) && i in s.lts
    ensures s.lts[i].home in s.homes && i in s.at
    ensures var lt, p, m := s.lts[i], s.at[i], s.homes[s.lts[i].home];
            HomeSide(m, i, lt, p) && WorkerSide(s.workers, s.list, i, lt, p) && CondSide(s.conds, i, lt, p, m.pc)
  {
    assert LtOk(s, i);
  }

  lemma KnowHome(s: State, h: nat)
    requires Inv(s) && h in s.homes
    ensures var m := s.homes[h];
            && NoDup(m.ready) && NoDup(m.defer)
            && (forall i :: i in m.ready || i in m.sleeping || i in m.waiting || i in m.defer || i in Mentions(m.pc)
                  ==> i in s.lts && s.lts[i].home == h)
  {
    assert HomeOk(s, h);
  }

  /** What it says of an lthread that scheduler `h` holds. */
  lemma Mine(s: State, h: nat, i: nat)
    requires Inv(s) && h in s.homes
    requires var m := s.homes[h];
             i in m.ready || i in m.sleeping || i in m.waiting || i in m.defer || i in Mentions(m.pc)
    ensures NoDup(s.homes[h].ready) && NoDup(s.homes[h].defer)
    ensures i in s.lts && s.lts[i].home == h && i in s.at
    ensures var lt, p, m := s.lts[i], s.at[i], s.homes[h];
            HomeSide(m, i, lt, p) && WorkerSide(s.workers, s.list, i, lt, p) && CondSide(s.conds, i, lt, p, m.pc)
  {
    assert HomeOk(s, h);
    assert LtOk(s, i);
  }

  predicate Away(p: Place) {
    p == Handed || p == InQueue || p == OnWorker
  }

  /** Compute schedulers do not mind where at home an lthread is. */
  lemma StillHome(workers: map<nat, Worker>, list: seq<nat>, i: nat, lt: Lthread, p: Place, lt': Lthread, p': Place)
    requires WorkerSide(workers, list, i, lt, p) && !Away(p) && !Away(p')
    requires lt'.pending == lt.pending && lt'.runCompute == lt.runCompute
    ensures WorkerSide(workers, list, i, lt', p')
  {
  }

  lemma NewLthread(s: State, i: nat, lt: Lthread, pc: HomePc)
    requires Inv(s) && i !in s.lts && lt.cond.None? && !lt.pending && !lt.runCompute
    ensures WorkerSide(s.workers, s.list, i, lt, Queued) && CondSide(s.conds, i, lt, Queued, pc)
  {
    forall k | k in s.workers ensures i !in s.workers[k].queue && i !in WorkerHolds(s.workers[k].pc) {
      assert WorkerOk(s, k);
    }
    forall c | c in s.conds ensures i !in s.conds[c] {
      assert CondOk(s, c);
    }
  }

  lemma SpawnKeeps(s: State, h: nat, i: nat)
    requires Inv(s) && h in s.homes && i !in s.lts
    ensures Inv(DoSpawn(s, h, i))
  {
    KnowHome(s, h);
    var m := s.homes[h];
    NoDupAppend(m.ready, i);
    var lt := Lthread(h, 0, false, false, false, false, None);
    NewLthread(s, i, lt, m.pc);
    assert HomeOk(s, h);
    HomeStep(s, h, m.(ready := m.ready + [i]), i, lt, Queued);
  }

  /** Inside one scheduler, taking the first ready lthread. */
  lemma ReadyPopped(m: Home, i: nat, lt: Lthread, p: Place)
    requires m.pc == Loop && m.ready != [] && i == m.ready[0]
    requires HomeSide(m, i, lt, p) && NoDup(m.ready) && NoDup(m.defer)
    ensures p == Queued
    ensures var m' := m.(ready := m.ready[1..], pc := Popped(i)); HomeBut(m, m', i) && HomeSide(m', i, lt, OnHome)
  {
  }

  lemma PopReadyKeeps(s: State, h: nat)
    requires Inv(s) && h in s.homes && s.homes[h].pc == Loop && s.homes[h].ready != []
    ensures s.homes[h].ready[0] in s.lts && Inv(DoPopReady(s, h))
  {
    var m := s.homes[h];
    var i := m.ready[0];
    Mine(s, h, i);
    ReadyPopped(m, i, s.lts[i], s.at[i]);
    StillHome(s.workers, s.list, i, s.lts[i], s.at[i], s.lts[i], OnHome);
    HomeStep(s, h, m.(ready := m.ready[1..], pc := Popped(i)), i, s.lts[i], OnHome);
  }

  lemma DeferPopped(m: Home, i: nat, lt: Lthread, p: Place)
    requires m.pc == Loop && m.defer != [] && i == m.defer[0]
    requires HomeSide(m, i, lt, p) && NoDup(m.ready) && NoDup(m.defer)
    ensures p == Deferred
    ensures var m' := m.(defer := m.defer[1..], busy := m.busy - {i}, pc := Popped(i));
            HomeBut(m, m', i) && HomeSide(m', i, lt, OnHome)
  {
  }

  lemma PopDeferKeeps(s: State, h: nat)
    requires Inv(s) && h in s.homes && s.homes[h].pc == Loop && s.homes[h].defer != []
    ensures s.homes[h].defer[0] in s.lts && Inv(DoPopDefer(s, h))
  {
    var m := s.homes[h];
    var i := m.defer[0];
    Mine(s, h, i);
    DeferPopped(m, i, s.lts[i], s.at[i]);
    StillHome(s.workers, s.list, i, s.lts[i], s.at[i], s.lts[i], OnHome);
    HomeStep(s, h, m.(defer := m.defer[1..], busy := m.busy - {i}, pc := Popped(i)), i, s.lts[i], OnHome);
  }

  lemma BlockedPopped(m: Home, i: nat, lt: Lthread, p: Place, expired: bool)
    requires m.pc == Loop && p.Blocked? && HomeSide(m, i, lt, p) && NoDup(m.ready) && NoDup(m.defer)
    requires expired || p.event
    ensures var m' := m.(sleeping := m.sleeping - {i}, waiting := m.waiting - {i}, pc := Popped(i));
            HomeBut(m, m', i) && HomeSide(m', i, lt.(expired := expired), OnHome)
  {
  }

  lemma ExpireKeeps(s: State, h: nat, i: nat)
    requires Inv(s) && h in s.homes && s.homes[h].pc == Loop && i in s.homes[h].sleeping
    ensures i in s.lts && Inv(DoExpire(s, h, i))
  {
    var m := s.homes[h];
    Mine(s, h, i);
    var lt' := s.lts[i].(expired := true);
    BlockedPopped(m, i, s.lts[i], s.at[i], true);
    StillHome(s.workers, s.list, i, s.lts[i], s.at[i], lt', OnHome);
    HomeStep(s, h, m.(sleeping := m.sleeping - {i}, waiting := m.waiting - {i}, pc := Popped(i)), i, lt', OnHome);
  }

  lemma FireKeeps(s: State, h: nat, i: nat)
    requires Inv(s) && h in s.homes && s.homes[h].pc == Loop && i in s.homes[h].waiting
    ensures i in s.lts && Inv(DoFire(s, h, i))
  {
    var m := s.homes[h];
    Mine(s, h, i);
    BlockedPopped(m, i, s.lts[i], s.at[i], false);
    StillHome(s.workers, s.list, i, s.lts[i], s.at[i], s.lts[i], OnHome);
    HomeStep(s, h, m.(sleeping := m.sleeping - {i}, waiting := m.waiting - {i}, pc := Popped(i)), i, s.lts[i], OnHome);
  }

  /** The queues after one of them has changed in what it says of `i`. */
  lemma OneCond(s: State, c: nat, q: seq<nat>, i: nat)
    requires Inv(s) && c in s.conds && QueueBut(s.conds[c], q, i)
    ensures CondsBut(s.conds, s.conds[c := q], i)
  {
    SameConds(s, i);
  }

  lemma Resumed(m: Home, i: nat, lt: Lthread)
    requires m.pc == Popped(i) && HomeSide(m, i, lt, OnHome) && NoDup(m.ready) && NoDup(m.defer)
    ensures var m' := m.(busy := if lt.cond.Some? then m.busy - {i} else m.busy, pc := Running(i));
            HomeBut(m, m', i) && HomeSide(m', i, lt.(cond := None), OnHome)
  {
  }

  lemma ResumedConds(s: State, i: nat, pc: HomePc)
    requires Inv(s) && i in s.lts && CondSide(s.conds, i, s.lts[i], OnHome, pc) && pc == Popped(i)
    ensures var lt := s.lts[i];
            var conds := if lt.expired then Left(s.conds, lt.cond, i) else s.conds;
            CondsBut(s.conds, conds, i) && CondSide(conds, i, lt.(cond := None), OnHome, Running(i))
  {
    var lt := s.lts[i];
    SameConds(s, i);
    if lt.expired && lt.cond.Some? {
      var c := lt.cond.value;
      assert CondOk(s, c);
      OneCond(s, c, Remove(s.conds[c], i), i);
    }
  }

  lemma ResumeKeeps(s: State, h: nat, i: nat)
    requires Inv(s) && h in s.homes && s.homes[h].pc == Popped(i)
    ensures i in s.lts && Inv(DoResume(s, h, i))
  {
    Mine(s, h, i);
    var m, lt := s.homes[h], s.lts[i];
    Resumed(m, i, lt);
    ResumedConds(s, i, m.pc);
    StillHome(s.workers, s.list, i, lt, OnHome, lt.(cond := None), OnHome);
    HomeCondStep(s, h, m.(busy := if lt.cond.Some? then m.busy - {i} else m.busy, pc := Running(i)), i,
                 lt.(cond := None),
                 OnHome, if lt.expired then Left(s.conds, lt.cond, i) else s.conds);
  }

  /** `lthread_cond_wait` returns -2 exactly when it finds itself still in the queue. */
  lemma TimedOutStillQueued(s: State, h: nat, i: nat, c: nat)
    requires Inv(s) && h in s.homes && s.homes[h].pc == Popped(i) && i in s.lts && s.lts[i].cond == Some(c)
    ensures s.lts[i].expired <==> c in s.conds && i in s.conds[c]
  {
    KnowHome(s, h);
    Know(s, i);
  }

  lemma Suspended(m: Home, i: nat, lt: Lthread, how: How)
    requires m.pc == Running(i) && HomeSide(m, i, lt, OnHome) && NoDup(m.ready) && NoDup(m.defer)
    ensures HomeBut(m, SuspendedHome(m, i, how), i)
    ensures HomeSide(SuspendedHome(m, i, how), i, SuspendedLthread(lt, how), SuspendedPlace(how))
  {
    NoDupAppend(m.ready, i);
    match how
    case Yield =>
    case Sleep =>
    case EventWait(timed) =>
    case CondWait(c, timed) =>
    case Exit =>
  }

  lemma SuspendedConds(s: State, i: nat, how: How)
    requires Inv(s) && i in s.lts && CondSide(s.conds, i, s.lts[i], OnHome, Running(i)) && s.lts[i].cond.None?
    requires how.CondWait? ==> how.cond in s.conds
    ensures var conds := if how.CondWait? then s.conds[how.cond := s.conds[how.cond] + [i]] else s.conds;
            && CondsBut(s.conds, conds, i)
            && CondSide(conds, i, SuspendedLthread(s.lts[i], how), SuspendedPlace(how), Back(i))
  {
    SameConds(s, i);
    if how.CondWait? {
      assert CondOk(s, how.cond);
      NoDupAppend(s.conds[how.cond], i);
      OneCond(s, how.cond, s.conds[how.cond] + [i], i);
    }
  }

  lemma SuspendKeeps(s: State, h: nat, i: nat, how: How)
    requires Inv(s) && h in s.homes && s.homes[h].pc == Running(i) && (how.CondWait? ==> how.cond in s.conds)
    ensures i in s.lts && Inv(DoSuspend(s, h, i, how))
  {
    Mine(s, h, i);
    var m, lt := s.homes[h], s.lts[i];
    Suspended(m, i, lt, how);
    SuspendedConds(s, i, how);
    StillHome(s.workers, s.list, i, lt, OnHome, SuspendedLthread(lt, how), SuspendedPlace(how));
    HomeCondStep(s, h, SuspendedHome(m, i, how), i, SuspendedLthread(lt, how), SuspendedPlace(how),
                 if how.CondWait? then s.conds[how.cond := s.conds[how.cond] + [i]] else s.conds);
  }

  lemma Signalled(m: Home, i: nat, lt: Lthread, p: Place)
    requires p.Blocked? && lt.cond.Some? && HomeSide(m, i, lt, p) && NoDup(m.ready) && NoDup(m.defer) && m.pc.Running?
    ensures var m' := m.(sleeping := m.sleeping - {i}, ready := m.ready + [i]);
            HomeBut(m, m', i) && HomeSide(m', i, lt, Queued)
  {
    NoDupAppend(m.ready, i);
  }

  lemma SignalledConds(s: State, c: nat, i: nat, pc: HomePc)
    requires Inv(s) && c in s.conds && s.conds[c] != [] && i == s.conds[c][0] && i in s.lts
    requires CondSide(s.conds, i, s.lts[i], s.at[i], pc) && pc.Running?
    ensures var conds := s.conds[c := s.conds[c][1..]];
            CondsBut(s.conds, conds, i) && CondSide(conds, i, s.lts[i], Queued, pc)
    ensures s.at[i].Blocked? && s.lts[i].cond == Some(c)
  {
    assert CondOk(s, c);
    assert s.conds[c] == [i] + s.conds[c][1..];
    OneCond(s, c, s.conds[c][1..], i);
  }

  lemma SignalFits(s: State, h: nat, c: nat, i: nat)
    requires Inv(s) && h in s.homes && s.homes[h].pc.Running? && c in s.conds && s.conds[c] != [] && i == s.conds[c][0]
    requires i in s.lts && s.lts[i].home == h
    ensures s.at[i].Blocked?
    ensures var m := s.homes[h].(sleeping := s.homes[h].sleeping - {i}, ready := s.homes[h].ready + [i]);
            && HomeBut(s.homes[h], m, i) && HomeSide(m, i, s.lts[i], Queued)
            && WorkerSide(s.workers, s.list, i, s.lts[i], Queued)
  {
    var m := s.homes[h];
    Know(s, i);
    SameHome(s, h, i);
    SignalledConds(s, c, i, m.pc);
    Signalled(m, i, s.lts[i], s.at[i]);
    StillHome(s.workers, s.list, i, s.lts[i], s.at[i], s.lts[i], Queued);
  }

  /** A waiter of the same scheduler: both changes are to one scheduler. */
  lemma OwnSignal(s: State, h: nat, c: nat, i: nat)
    requires h in s.homes && c in s.conds && s.conds[c] != [] && i == s.conds[c][0] && i in s.lts && s.lts[i].home == h
    ensures var m := s.homes[h].(sleeping := s.homes[h].sleeping - {i}, ready := s.homes[h].ready + [i]);
            DoSignal(s, h, c) == Upd(s, h, m, i, s.lts[i], Queued).(conds := s.conds[c := s.conds[c][1..]])
  {
    assert s.lts[i := s.lts[i]] == s.lts;
  }

  /** What a signal looks up. */
  lemma Waiter(s: State, c: nat)
    requires Inv(s) && c in s.conds && s.conds[c] != []
    ensures s.conds[c][0] in s.lts && s.lts[s.conds[c][0]].home in s.homes
  {
    assert CondOk(s, c);
    Know(s, s.conds[c][0]);
  }

  /** A waiter woken by its own scheduler is a blocked one, never one that is ready or running. */
  lemma SignalKeeps(s: State, h: nat, c: nat)
    requires Inv(s) && h in s.homes && s.homes[h].pc.Running? && c in s.conds && s.conds[c] != []
    requires s.conds[c][0] in s.lts && s.lts[s.conds[c][0]].home == h
    ensures s.at[s.conds[c][0]].Blocked? && Inv(DoSignal(s, h, c))
  {
    var m, i := s.homes[h], s.conds[c][0];
    SignalFits(s, h, c, i);
    Know(s, i);
    SignalledConds(s, c, i, m.pc);
    OwnSignal(s, h, c, i);
    HomeCondStep(s, h, m.(sleeping := m.sleeping - {i}, ready := m.ready + [i]), i, s.lts[i], Queued,
                 s.conds[c := s.conds[c][1..]]);
  }

  /** A signal keeps the invariant exactly when the waiter belongs to the scheduler of the caller. */
  lemma SignalIsOwn(s: State, h: nat, c: nat)
    requires Inv(s) && h in s.homes && s.homes[h].pc.Running? && c in s.conds && s.conds[c] != []
    ensures s.conds[c][0] in s.lts && s.lts[s.conds[c][0]].home in s.homes
    ensures Inv(DoSignal(s, h, c)) <==> s.lts[s.conds[c][0]].home == h
  {
    Waiter(s, c);
    var i := s.conds[c][0];
    if s.lts[i].home == h {
      SignalKeeps(s, h, c);
    } else {
      var s' := DoSignal(s, h, c);
      assert i in s'.homes[h].ready;
      assert !HomeOk(s', h);
    }
  }

  lemma SameWaits(conds: map<nat, seq<nat>>, i: nat, lt: Lthread, p: Place, pc: HomePc,
                  lt': Lthread, p': Place, pc': HomePc)
    requires CondSide(conds, i, lt, p, pc) && pc != Popped(i) && pc' != Popped(i)
    requires lt'.cond == lt.cond && (p'.Blocked? <==> p.Blocked?)
    ensures CondSide(conds, i, lt', p', pc')
  {
  }

  lemma LeftHome(m: Home, i: nat, lt: Lthread, p: Place)
    requires m.pc == Leaving(i) && HomeSide(m, i, lt, p) && NoDup(m.ready) && NoDup(m.defer)
    ensures HomeBut(m, m.(pc := Back(i)), i) && HomeSide(m.(pc := Back(i)), i, lt, p)
  {
  }

  lemma LeaveKeeps(s: State, h: nat, i: nat)
    requires Inv(s) && h in s.homes && s.homes[h].pc == Leaving(i)
    ensures i in s.lts && i in s.at && Inv(DoLeave(s, h, i))
  {
    Mine(s, h, i);
    var m, lt, p := s.homes[h], s.lts[i], s.at[i];
    LeftHome(m, i, lt, p);
    SameWaits(s.conds, i, lt, p, m.pc, lt, p, Back(i));
    HomeStep(s, h, m.(pc := Back(i)), i, lt, p);
  }

  lemma Switched(m: Home, i: nat, lt: Lthread, p: Place, m': Home)
    requires m.pc == Back(i) && HomeSide(m, i, lt, p) && (lt.pending <==> p == Handed)
    requires NoDup(m.ready) && NoDup(m.defer)
    requires m' == if lt.exited then m.(pc := Loop) else if lt.pending then m.(busy := m.busy + {i}, pc := Adding(i))
                   else m.(pc := Clearing(i))
    ensures HomeBut(m, m', i) && HomeSide(m', i, lt, p)
  {
  }

  lemma AfterSwitchKeeps(s: State, h: nat, i: nat)
    requires Inv(s) && h in s.homes && s.homes[h].pc == Back(i)
    ensures i in s.lts && i in s.at && Inv(DoAfterSwitch(s, h, i))
  {
    Mine(s, h, i);
    var m, lt := s.homes[h], s.lts[i];
    var m' := if lt.exited then m.(pc := Loop) else if lt.pending then m.(busy := m.busy + {i}, pc := Adding(i))
              else m.(pc := Clearing(i));
    Switched(m, i, lt, s.at[i], m');
    HomeStep(s, h, m', i, lt, s.at[i]);
  }

  lemma Added(workers: map<nat, Worker>, list: seq<nat>, i: nat, lt: Lthread)
    requires WorkerSide(workers, list, i, lt, Handed)
    ensures WorkerSide(workers, list, i, lt.(pending := false, runCompute := true), InQueue)
  {
  }

  lemma AddedHome(m: Home, i: nat, lt: Lthread, p: Place)
    requires m.pc == Adding(i) && HomeSide(m, i, lt, p) && NoDup(m.ready) && NoDup(m.defer)
    ensures p == Handed && HomeBut(m, m.(pc := Clearing(i)), i)
    ensures HomeSide(m.(pc := Clearing(i)), i, lt.(pending := false, runCompute := true), InQueue)
  {
  }

  lemma AddKeeps(s: State, h: nat, i: nat)
    requires Inv(s) && h in s.homes && s.homes[h].pc == Adding(i)
    ensures i in s.lts && Inv(DoAdd(s, h, i))
  {
    Mine(s, h, i);
    var m, lt := s.homes[h], s.lts[i];
    var lt' := lt.(pending := false, runCompute := true);
    AddedHome(m, i, lt, s.at[i]);
    Added(s.workers, s.list, i, lt);
    SameWaits(s.conds, i, lt, Handed, m.pc, lt', InQueue, Clearing(i));
    HomeStep(s, h, m.(pc := Clearing(i)), i, lt', InQueue);
  }

  lemma Cleared(m: Home, i: nat, lt: Lthread, p: Place)
    requires m.pc == Clearing(i) && HomeSide(m, i, lt, p) && NoDup(m.ready) && NoDup(m.defer)
    ensures HomeBut(m, m.(pc := Loop), i) && HomeSide(m.(pc := Loop), i, lt.(expired := false), p)
  {
  }

  lemma ClearedWorkers(workers: map<nat, Worker>, list: seq<nat>, i: nat, lt: Lthread, p: Place)
    requires WorkerSide(workers, list, i, lt, p)
    ensures WorkerSide(workers, list, i, lt.(expired := false), p)
  {
  }

  lemma ClearKeeps(s: State, h: nat, i: nat)
    requires Inv(s) && h in s.homes && s.homes[h].pc == Clearing(i)
    ensures i in s.lts && i in s.at && Inv(DoClear(s, h, i))
  {
    Mine(s, h, i);
    var m, lt, p := s.homes[h], s.lts[i], s.at[i];
    Cleared(m, i, lt, p);
    ClearedWorkers(s.workers, s.list, i, lt, p);
    SameWaits(s.conds, i, lt, p, m.pc, lt.(expired := false), p, Loop);
    HomeStep(s, h, m.(pc := Loop), i, lt.(expired := false), p);
  }

  /* ---------- Steps of a compute scheduler ---------- */

  ghost predicate Listed(workers: map<nat, Worker>, list: seq<nat>) {
    && NoDup(list) && (forall k :: k in list ==> k in workers)
    && (forall k :: k in workers ==> (k in list <==> workers[k].pc != Gone))
  }

  lemma OneWorkerBut(workers: map<nat, Worker>, list: seq<nat>, k: nat, w: Worker, i: nat)
    requires WorkersBut(workers, list, workers, list, i) && Listed(workers, list)
    requires k in workers && WorkerBut(workers[k], w, i) && (w.pc == Gone <==> workers[k].pc == Gone)
    ensures WorkersBut(workers, list, workers[k := w], list, i) && Listed(workers[k := w], list)
  {
  }

  lemma OneWorker(s: State, k: nat, w: Worker, i: nat)
    requires Inv(s) && k in s.workers && WorkerBut(s.workers[k], w, i) && (w.pc == Gone <==> s.workers[k].pc == Gone)
    ensures WorkersBut(s.workers, s.list, s.workers[k := w], s.list, i) && Listed(s.workers[k := w], s.list)
  {
    SameWorkers(s, i);
    OneWorkerBut(s.workers, s.list, k, w, i);
  }

  lemma BothStep(s: State, h: nat, m: Home, k: nat, w: Worker, i: nat, lt: Lthread, p: Place)
    requires Inv(s) && h in s.homes && lt.home == h && i in s.lts && s.lts[i].home == h && k in s.workers
    requires HomeBut(s.homes[h], m, i) && HomeSide(m, i, lt, p)
    requires WorkerBut(s.workers[k], w, i) && (w.pc == Gone <==> s.workers[k].pc == Gone)
    requires WorkerSide(s.workers[k := w], s.list, i, lt, p) && CondSide(s.conds, i, lt, p, m.pc)
    ensures Inv(Both(s, h, m, k, w, i, lt, p))
  {
    var s' := Both(s, h, m, k, w, i, lt, p);
    assert Differ(s, s', i) by {
      OneWorker(s, k, w, i);
      SameConds(s, i);
      UpdDiffers(s, h, m, i, lt, p);
    }
    assert LtOk(s', i);
    OneLthread(s, s', i);
  }

  lemma KnowWorker(s: State, k: nat)
    requires Inv(s) && k in s.workers
    ensures var w := s.workers[k];
            && NoDup(w.queue) && (k in s.list <==> w.pc != Gone) && (w.pc == Gone ==> w.queue == [])
            && (forall i :: i in w.queue || i in WorkerHolds(w.pc) ==> i in s.lts)
  {
    assert WorkerOk(s, k);
  }

  lemma QueuedWorkers(workers: map<nat, Worker>, list: seq<nat>, i: nat, lt: Lthread, p: Place, k: nat)
    requires WorkerSide(workers, list, i, lt, p) && !Away(p) && k in workers && k in list
    ensures var w := workers[k].(queue := workers[k].queue + [i]);
            WorkerSide(workers[k := w], list, i, lt.(worker := k, pending := true), Handed)
  {
  }

  lemma QueuedHome(m: Home, i: nat, lt: Lthread, k: nat)
    requires m.pc == Running(i) && HomeSide(m, i, lt, OnHome) && NoDup(m.ready) && NoDup(m.defer)
    ensures HomeBut(m, m.(pc := Leaving(i)), i)
    ensures HomeSide(m.(pc := Leaving(i)), i, lt.(worker := k, pending := true), Handed)
  {
  }

  lemma QueueFits(s: State, h: nat, i: nat, k: nat)
    requires Inv(s) && h in s.homes && s.homes[h].pc == Running(i) && k in s.workers && k in s.list
    ensures i in s.lts && s.lts[i].home == h
    ensures var m, lt, w := s.homes[h].(pc := Leaving(i)), s.lts[i].(worker := k, pending := true),
                            s.workers[k].(queue := s.workers[k].queue + [i]);
            && HomeBut(s.homes[h], m, i) && HomeSide(m, i, lt, Handed) && WorkerBut(s.workers[k], w, i)
            && WorkerSide(s.workers[k := w], s.list, i, lt, Handed) && CondSide(s.conds, i, lt, Handed, m.pc)
            && w.pc != Gone
  {
    Mine(s, h, i);
    KnowWorker(s, k);
    var m, lt, w := s.homes[h], s.lts[i], s.workers[k];
    QueuedHome(m, i, lt, k);
    QueuedWorkers(s.workers, s.list, i, lt, s.at[i], k);
    NoDupAppend(w.queue, i);
    SameWaits(s.conds, i, lt, OnHome, m.pc, lt.(worker := k, pending := true), Handed, Leaving(i));
  }

  lemma QueueKeeps(s: State, h: nat, i: nat, k: nat)
    requires Inv(s) && h in s.homes && s.homes[h].pc == Running(i) && k in s.workers && k in s.list
    ensures i in s.lts && Inv(Queue(s, h, i, k))
  {
    QueueFits(s, h, i, k);
    var w := s.workers[k];
    BothStep(s, h, s.homes[h].(pc := Leaving(i)), k, w.(queue := w.queue + [i]), i,
             s.lts[i].(worker := k, pending := true), Handed);
  }

  ghost predicate WorkerFine(w: Worker, lts: map<nat, Lthread>) {
    && NoDup(w.queue) && (w.pc == Gone ==> w.queue == [])
    && forall i :: i in w.queue || i in WorkerHolds(w.pc) ==> i in lts
  }

  ghost predicate WorkersFine(workers: map<nat, Worker>, lts: map<nat, Lthread>) {
    forall k :: k in workers ==> WorkerFine(workers[k], lts)
  }

  ghost predicate AllWorkerSide(workers: map<nat, Worker>, list: seq<nat>, lts: map<nat, Lthread>, at: map<nat, Place>)
    requires at.Keys == lts.Keys
  {
    forall i :: i in lts ==> WorkerSide(workers, list, i, lts[i], at[i])
  }

  /** A step that changes compute schedulers only. */
  lemma WorkersStep(s: State, workers: map<nat, Worker>, list: seq<nat>)
    requires Inv(s) && Listed(workers, list) && WorkersFine(workers, s.lts) && AllWorkerSide(workers, list, s.lts, s.at)
    ensures Inv(s.(workers := workers, list := list))
  {
    var s' := s.(workers := workers, list := list);
    forall j | j in s'.lts ensures LtOk(s', j) {
      Know(s, j);
    }
    forall h | h in s'.homes ensures HomeOk(s', h) {
      assert HomeOk(s, h);
    }
    forall k | k in s'.workers ensures WorkerOk(s', k) {
      assert WorkerFine(workers[k], s.lts);
    }
    forall c | c in s'.conds ensures CondOk(s', c) {
      assert CondOk(s, c);
    }
  }

  lemma KnowWorkers(s: State)
    requires Inv(s)
    ensures Listed(s.workers, s.list) && WorkersFine(s.workers, s.lts) && AllWorkerSide(s.workers, s.list, s.lts, s.at)
  {
    SameWorkers(s, 0);
    forall k | k in s.workers ensures WorkerFine(s.workers[k], s.lts) {
      assert WorkerOk(s, k);
    }
    forall i | i in s.lts ensures WorkerSide(s.workers, s.list, i, s.lts[i], s.at[i]) {
      Know(s, i);
    }
  }

  lemma NewWorkerSide(workers: map<nat, Worker>, list: seq<nat>, i: nat, lt: Lthread, p: Place, k: nat)
    requires WorkerSide(workers, list, i, lt, p) && k !in workers
    ensures WorkerSide(workers[k := Worker([], false, Scan)], [k] + list, i, lt, p)
  {
  }

  lemma NewListed(workers: map<nat, Worker>, list: seq<nat>, k: nat)
    requires Listed(workers, list) && k !in workers
    ensures Listed(workers[k := Worker([], false, Scan)], [k] + list)
  {
  }

  lemma NewWorkerFits(workers: map<nat, Worker>, list: seq<nat>, lts: map<nat, Lthread>, at: map<nat, Place>, k: nat)
    requires k !in workers && at.Keys == lts.Keys
    requires Listed(workers, list) && WorkersFine(workers, lts) && AllWorkerSide(workers, list, lts, at)
    ensures var workers' := workers[k := Worker([], false, Scan)];
            && Listed(workers', [k] + list) && WorkersFine(workers', lts)
            && AllWorkerSide(workers', [k] + list, lts, at)
  {
    NewListed(workers, list, k);
    forall i | i in lts ensures WorkerSide(workers[k := Worker([], false, Scan)], [k] + list, i, lts[i], at[i]) {
      NewWorkerSide(workers, list, i, lts[i], at[i], k);
    }
  }

  lemma NewWorkerKeeps(s: State, k: nat)
    requires Inv(s) && k !in s.workers
    ensures Inv(WithWorker(s, k))
  {
    KnowWorkers(s);
    NewWorkerFits(s.workers, s.list, s.lts, s.at, k);
    WorkersStep(s, s.workers[k := Worker([], false, Scan)], [k] + s.list);
  }

  lemma ComputeBeginKeeps(s: State, h: nat, i: nat, k: nat, created: bool)
    requires Inv(s) && h in s.homes && s.homes[h].pc == Running(i) && k !in s.workers
    ensures i in s.lts && Inv(DoComputeBegin(s, h, i, k, created))
  {
    KnowHome(s, h);
    var free := FirstFree(s.workers, s.list);
    if free.Some? {
      QueueKeeps(s, h, i, free.value);
    } else if created {
      NewWorkerKeeps(s, k);
      QueueKeeps(WithWorker(s, k), h, i, k);
    } else if s.list != [] {
      QueueKeeps(s, h, i, s.list[0]);
    }
  }

  /** A move of a compute scheduler that keeps its queue and the lthread in its hand. */
  lemma WorkerPcKeeps(s: State, k: nat, pc: WorkerPc, free: bool)
    requires Inv(s) && k in s.workers && WorkerHolds(pc) == WorkerHolds(s.workers[k].pc)
    requires pc != Gone && s.workers[k].pc != Gone
    ensures Inv(DoWorkerPc(s, k, pc, free))
  {
    var w := s.workers[k].(pc := pc, free := free);
    KnowWorkers(s);
    SamePcListed(s.workers, s.list, s.lts, k, pc, free);
    forall i | i in s.lts ensures WorkerSide(s.workers[k := w], s.list, i, s.lts[i], s.at[i]) {
      SamePcSide(s.workers, s.list, i, s.lts[i], s.at[i], k, pc, free);
    }
    WorkersStep(s, s.workers[k := w], s.list);
  }

  lemma SamePcListed(workers: map<nat, Worker>, list: seq<nat>, lts: map<nat, Lthread>, k: nat, pc: WorkerPc,
                     free: bool)
    requires Listed(workers, list) && WorkersFine(workers, lts) && k in workers && pc != Gone && workers[k].pc != Gone
    requires WorkerHolds(pc) == WorkerHolds(workers[k].pc)
    ensures var w := workers[k].(pc := pc, free := free);
            Listed(workers[k := w], list) && WorkersFine(workers[k := w], lts)
  {
  }

  lemma SamePcSide(workers: map<nat, Worker>, list: seq<nat>, i: nat, lt: Lthread, p: Place, k: nat, pc: WorkerPc,
                   free: bool)
    requires WorkerSide(workers, list, i, lt, p) && k in workers && WorkerHolds(pc) == WorkerHolds(workers[k].pc)
    ensures WorkerSide(workers[k := workers[k].(pc := pc, free := free)], list, i, lt, p)
  {
  }

  /** A compute scheduler that leaves the list has nothing queued, so nobody is on it. */
  lemma UnlinkKeeps(s: State, k: nat)
    requires Inv(s) && k in s.workers && s.workers[k].pc == TimedOut && s.workers[k].queue == []
    ensures Inv(DoWorkerTimeout(s, k))
  {
    var w := s.workers[k].(pc := Gone);
    KnowWorkers(s);
    forall i | i in s.lts ensures WorkerSide(s.workers[k := w], Remove(s.list, k), i, s.lts[i], s.at[i]) {
      UnlinkedSide(s.workers, s.list, i, s.lts[i], s.at[i], k);
    }
    WorkersStep(s, s.workers[k := w], Remove(s.list, k));
  }

  lemma UnlinkedSide(workers: map<nat, Worker>, list: seq<nat>, i: nat, lt: Lthread, p: Place, k: nat)
    requires WorkerSide(workers, list, i, lt, p) && k in workers && workers[k].queue == [] && workers[k].pc == TimedOut
    ensures WorkerSide(workers[k := workers[k].(pc := Gone)], Remove(list, k), i, lt, p)
  {
  }

  lemma TakenSide(workers: map<nat, Worker>, list: seq<nat>, i: nat, lt: Lthread, p: Place, k: nat)
    requires WorkerSide(workers, list, i, lt, p) && k in workers && workers[k].pc == Scan && NoDup(workers[k].queue)
    requires workers[k].queue != [] && i == workers[k].queue[0] && !lt.pending
    ensures p == InQueue && lt.worker == k
    ensures var w := workers[k].(queue := workers[k].queue[1..], pc := Took(i));
            WorkerSide(workers[k := w], list, i, lt, OnWorker) && WorkerBut(workers[k], w, i)
  {
  }

  lemma TakenHome(m: Home, i: nat, lt: Lthread)
    requires HomeSide(m, i, lt, InQueue)
    ensures HomeSide(m, i, lt, OnWorker) && m.pc != Popped(i)
  {
  }

  lemma ScanKeeps(s: State, k: nat)
    requires Inv(s) && k in s.workers && s.workers[k].pc == Scan
    ensures forall i :: i in s.workers[k].queue ==> i in s.lts && s.lts[i].home in s.homes
    ensures Inv(DoScan(s, k))
  {
    KnowWorker(s, k);
    var w := s.workers[k];
    forall i | i in w.queue ensures s.lts[i].home in s.homes {
      Know(s, i);
    }
    if w.queue == [] {
      WorkerPcKeeps(s, k, Parked, w.free);
    } else if !s.lts[w.queue[0]].pending {
      TakeKeeps(s, k, w.queue[0]);
    }
  }

  lemma TakeKeeps(s: State, k: nat, i: nat)
    requires Inv(s) && k in s.workers && s.workers[k].pc == Scan
    requires s.workers[k].queue != [] && i == s.workers[k].queue[0]
    requires i in s.lts && s.lts[i].home in s.homes && !s.lts[i].pending
    ensures s.homes[s.lts[i].home].pc !in {Popped(i), Running(i), Leaving(i), Back(i), Adding(i)}
    ensures var h, w := s.lts[i].home, s.workers[k];
            Inv(Both(s, h, s.homes[h], k, w.(queue := w.queue[1..], pc := Took(i)), i, s.lts[i], OnWorker))
  {
    KnowWorker(s, k);
    Know(s, i);
    var h, w, lt := s.lts[i].home, s.workers[k], s.lts[i];
    TakenSide(s.workers, s.list, i, lt, s.at[i], k);
    TakenHome(s.homes[h], i, lt);
    SameHome(s, h, i);
    SameWaits(s.conds, i, lt, s.at[i], s.homes[h].pc, lt, OnWorker, s.homes[h].pc);
    BothStep(s, h, s.homes[h], k, w.(queue := w.queue[1..], pc := Took(i)), i, lt, OnWorker);
  }

  lemma DeferredHome(m: Home, i: nat, lt: Lthread)
    requires HomeSide(m, i, lt, OnWorker) && NoDup(m.ready) && NoDup(m.defer)
    ensures var m' := m.(defer := m.defer + [i]);
            HomeBut(m, m', i) && HomeSide(m', i, lt.(runCompute := false), Deferred) && m.pc != Popped(i)
  {
    NoDupAppend(m.defer, i);
  }

  lemma DeferredSide(workers: map<nat, Worker>, list: seq<nat>, i: nat, lt: Lthread, p: Place, k: nat)
    requires WorkerSide(workers, list, i, lt, p) && k in workers && workers[k].pc == Done(i) && NoDup(workers[k].queue)
    ensures p == OnWorker && lt.worker == k
    ensures var w := workers[k].(pc := Scan);
            WorkerSide(workers[k := w], list, i, lt.(runCompute := false), Deferred) && WorkerBut(workers[k], w, i)
  {
  }

  lemma DeferKeeps(s: State, k: nat, i: nat)
    requires Inv(s) && k in s.workers && s.workers[k].pc == Done(i)
    ensures i in s.lts && s.lts[i].home in s.homes && Inv(DoDefer(s, k, i))
  {
    KnowWorker(s, k);
    Know(s, i);
    var h, w, lt := s.lts[i].home, s.workers[k], s.lts[i];
    var m, lt' := s.homes[h], lt.(runCompute := false);
    KnowHome(s, h);
    DeferredSide(s.workers, s.list, i, lt, s.at[i], k);
    DeferredHome(m, i, lt);
    SameWaits(s.conds, i, lt, s.at[i], m.pc, lt', Deferred, m.pc);
    BothStep(s, h, m.(defer := m.defer + [i]), k, w.(pc := Scan), i, lt', Deferred);
  }

  /* ---------- Runs ---------- */

  predicate ActEnabled(s: State, h: nat, act: Act)
    requires h in s.homes
  {
    var m := s.homes[h];
    match act
    case Spawn(i) => (m.pc == Loop || m.pc.Running?) && i !in s.lts
    case PopReady => m.pc == Loop && m.ready != []
    case PopDefer => m.pc == Loop && m.defer != []
    case Expire(i) => m.pc == Loop && i in m.sleeping
    case Fire(i) => m.pc == Loop && i in m.waiting
    case Resume => m.pc.Popped?
    case Suspend(how) => m.pc.Running? && (how.CondWait? ==> how.cond in s.conds)
    case Signal(c) => m.pc.Running? && c in s.conds && s.conds[c] != []
    case ComputeBegin(k, created) => m.pc.Running? && k !in s.workers
    case Leave => m.pc.Leaving?
    case AfterSwitch => m.pc.Back?
    case Add => m.pc.Adding?
    case Clear => m.pc.Clearing?
  }

  predicate WorkEnabled(w: Worker, work: Work) {
    match work
    case Look => w.pc == Scan
    case TakeUp => w.pc.Took?
    case ComputeEnd => w.pc.Computing?
    case GiveBack => w.pc.Done?
    case WakeUp(timeout) => w.pc == Parked
    case GiveUp => w.pc == TimedOut
  }

  /** What the lookups of a scheduler's step rely on: pointers lead to lthreads and schedulers. */
  ghost predicate Grounded(s: State, h: nat) {
    && h in s.homes
    && var m := s.homes[h];
    && (m.ready != [] ==> m.ready[0] in s.lts) && (m.defer != [] ==> m.defer[0] in s.lts)
    && (forall i :: i in m.sleeping || i in m.waiting ==> i in s.lts)
    && (!m.pc.Loop? ==> m.pc.lt in s.lts && m.pc.lt in s.at)
    && (forall c :: c in s.conds && s.conds[c] != [] ==> s.conds[c][0] in s.lts && s.lts[s.conds[c][0]].home in s.homes)
    && (forall k :: k in s.list ==> k in s.workers)
  }

  lemma InvGrounds(s: State, h: nat)
    requires Inv(s) && h in s.homes
    ensures Grounded(s, h)
  {
    KnowHome(s, h);
    forall c | c in s.conds && s.conds[c] != []
      ensures s.conds[c][0] in s.lts && s.lts[s.conds[c][0]].home in s.homes {
      Waiter(s, c);
    }
  }

  ghost function ActNext(s: State, h: nat, act: Act): State
    requires Grounded(s, h) && ActEnabled(s, h, act)
  {
    var pc := s.homes[h].pc;
    match act
    case Spawn(i) => DoSpawn(s, h, i)
    case PopReady => DoPopReady(s, h)
    case PopDefer => DoPopDefer(s, h)
    case Expire(i) => DoExpire(s, h, i)
    case Fire(i) => DoFire(s, h, i)
    case Resume => DoResume(s, h, pc.lt)
    case Suspend(how) => DoSuspend(s, h, pc.lt, how)
    case Signal(c) => DoSignal(s, h, c)
    case ComputeBegin(k, created) => DoComputeBegin(s, h, pc.lt, k, created)
    case Leave => DoLeave(s, h, pc.lt)
    case AfterSwitch => DoAfterSwitch(s, h, pc.lt)
    case Add => DoAdd(s, h, pc.lt)
    case Clear => DoClear(s, h, pc.lt)
  }

  /** A signal wakes an lthread of the scheduler that gives it; other steps are always proper. */
  predicate ActProper(s: State, h: nat, act: Act) {
    act.Signal? && act.cond in s.conds && s.conds[act.cond] != [] && s.conds[act.cond][0] in s.lts ==>
      s.lts[s.conds[act.cond][0]].home == h
  }

  lemma ActKeepsInv(s: State, h: nat, act: Act)
    requires Inv(s) && h in s.homes && ActEnabled(s, h, act) && ActProper(s, h, act)
    ensures Grounded(s, h) && Inv(ActNext(s, h, act))
  {
    InvGrounds(s, h);
    match act
    case Spawn(i) => SpawnKeeps(s, h, i);
    case PopReady => PopReadyKeeps(s, h);
    case PopDefer => PopDeferKeeps(s, h);
    case Expire(i) => ExpireKeeps(s, h, i);
    case Fire(i) => FireKeeps(s, h, i);
    case Resume => ResumeKeeps(s, h, s.homes[h].pc.lt);
    case Suspend(how) => SuspendKeeps(s, h, s.homes[h].pc.lt, how);
    case Signal(c) => SignalKeeps(s, h, c);
    case ComputeBegin(k, created) => ComputeBeginKeeps(s, h, s.homes[h].pc.lt, k, created);
    case Leave => LeaveKeeps(s, h, s.homes[h].pc.lt);
    case AfterSwitch => AfterSwitchKeeps(s, h, s.homes[h].pc.lt);
    case Add => AddKeeps(s, h, s.homes[h].pc.lt);
    case Clear => ClearKeeps(s, h, s.homes[h].pc.lt);
  }

  ghost predicate GroundedWorker(s: State, k: nat) {
    && k in s.workers
    && forall i :: i in s.workers[k].queue || i in WorkerHolds(s.workers[k].pc) ==>
         i in s.lts && s.lts[i].home in s.homes
  }

  lemma InvGroundsWorker(s: State, k: nat)
    requires Inv(s) && k in s.workers
    ensures GroundedWorker(s, k)
  {
    KnowWorker(s, k);
    forall i | i in s.workers[k].queue || i in WorkerHolds(s.workers[k].pc) ensures s.lts[i].home in s.homes {
      Know(s, i);
    }
  }

  ghost function WorkNext(s: State, k: nat, work: Work): State
    requires GroundedWorker(s, k) && WorkEnabled(s.workers[k], work)
  {
    var w := s.workers[k];
    match work
    case Look => DoScan(s, k)
    case TakeUp => DoWorkerPc(s, k, Computing(w.pc.lt), false)
    case ComputeEnd => DoWorkerPc(s, k, Done(w.pc.lt), true)
    case GiveBack => DoDefer(s, k, w.pc.lt)
    case WakeUp(timeout) => DoWorkerPc(s, k, if timeout then TimedOut else Scan, w.free)
    case GiveUp => DoWorkerTimeout(s, k)
  }

  lemma MoveKeeps(s: State, k: nat, work: Work)
    requires Inv(s) && k in s.workers && WorkEnabled(s.workers[k], work)
    requires work.TakeUp? || work.ComputeEnd? || work.WakeUp?
    ensures GroundedWorker(s, k) && Inv(WorkNext(s, k, work))
  {
    InvGroundsWorker(s, k);
    var w := s.workers[k];
    var pc := match work case TakeUp => Computing(w.pc.lt) case ComputeEnd => Done(w.pc.lt)
              case _ => if work == WakeUp(true) then TimedOut else Scan;
    WorkerPcKeeps(s, k, pc, if work.TakeUp? then false else if work.ComputeEnd? then true else w.free);
  }

  lemma TimeoutKeeps(s: State, k: nat)
    requires Inv(s) && k in s.workers && s.workers[k].pc == TimedOut
    ensures Inv(DoWorkerTimeout(s, k))
  {
    if s.workers[k].queue == [] {
      UnlinkKeeps(s, k);
    } else {
      WorkerPcKeeps(s, k, Scan, s.workers[k].free);
    }
  }

  lemma WorkKeepsInv(s: State, k: nat, work: Work)
    requires Inv(s) && k in s.workers && WorkEnabled(s.workers[k], work)
    ensures GroundedWorker(s, k) && Inv(WorkNext(s, k, work))
  {
    InvGroundsWorker(s, k);
    var w := s.workers[k];
    match work
    case Look => ScanKeeps(s, k);
    case TakeUp => MoveKeeps(s, k, work);
    case ComputeEnd => MoveKeeps(s, k, work);
    case GiveBack => DeferKeeps(s, k, w.pc.lt);
    case WakeUp(timeout) => MoveKeeps(s, k, work);
    case GiveUp => TimeoutKeeps(s, k);
  }

  /** The step can be taken. */
  ghost predicate Enabled(s: State, st: Step) {
    match st
    case AtHome(h, act) => Grounded(s, h) && ActEnabled(s, h, act)
    case AtWorker(k, work) => GroundedWorker(s, k) && WorkEnabled(s.workers[k], work)
  }

  ghost predicate Proper(s: State, st: Step) {
    st.AtHome? ==> ActProper(s, st.h, st.act)
  }

  ghost function Next(s: State, st: Step): State
    requires Enabled(s, st)
  {
    match st
    case AtHome(h, act) => ActNext(s, h, act)
    case AtWorker(k, work) => WorkNext(s, k, work)
  }

  /** Every step of a scheduler, an lthread or a compute scheduler keeps the invariant exactly when it is
      not a signal to an lthread of another scheduler. */
  lemma StepIsProper(s: State, st: Step)
    requires Inv(s) && Enabled(s, st)
    ensures Inv(Next(s, st)) <==> Proper(s, st)
  {
    match st
    case AtHome(h, act) =>
      if ActProper(s, h, act) {
        ActKeepsInv(s, h, act);
      } else {
        SignalIsOwn(s, h, act.cond);
      }
    case AtWorker(k, work) => WorkKeepsInv(s, k, work);
  }

  /** Schedulers before anything runs, and condition variables nobody waits for. */
  ghost function Start(homes: set<nat>, conds: set<nat>): (s: State)
    ensures Inv(s)
  {
    State(map h | h in homes :: Home([], {}, {}, {}, [], Loop), map[], [], map[], map c | c in conds :: [], map[])
  }

  /** Each step can be taken when its turn comes. */
  ghost predicate Possible(s: State, ops: seq<Step>)
    decreases |ops|, 0
  {
    ops == [] || (Possible(s, ops[..|ops| - 1]) && Enabled(Exec(s, ops[..|ops| - 1]), ops[|ops| - 1]))
  }

  /** The state after a run. */
  ghost function Exec(s: State, ops: seq<Step>): State
    requires Possible(s, ops)
    decreases |ops|, 1
  {
    if ops == [] then s else Next(Exec(s, ops[..|ops| - 1]), ops[|ops| - 1])
  }

  /** No signal of the run is to an lthread of another scheduler. */
  ghost predicate OwnSignals(s: State, ops: seq<Step>)
    requires Possible(s, ops)
  {
    ops == [] || (OwnSignals(s, ops[..|ops| - 1]) && Proper(Exec(s, ops[..|ops| - 1]), ops[|ops| - 1]))
  }

  ghost predicate Legal(s: State, ops: seq<Step>) {
    Possible(s, ops) && OwnSignals(s, ops)
  }

  /** The invariant holds after every run. */
  lemma {:induction false} RunKeepsInv(s: State, ops: seq<Step>)
    requires Inv(s) && Legal(s, ops)
    ensures Inv(Exec(s, ops))
  {
    if ops == [] {
    } else {
      RunKeepsInv(s, ops[..|ops| - 1]);
      StepIsProper(Exec(s, ops[..|ops| - 1]), ops[|ops| - 1]);
    }
  }

  /* ---------- What holds in every run ---------- */

  datatype Pthread = HomeThread(h: nat) | WorkerThread(k: nat)

  /** The pthread is executing instructions of lthread `i`. */
  predicate Executes(s: State, t: Pthread, i: nat) {
    match t
    case HomeThread(h) => h in s.homes && s.homes[h].pc in {Running(i), Leaving(i)}
    case WorkerThread(k) => k in s.workers && s.workers[k].pc == Computing(i)
  }

  /** No lthread runs on two pthreads, scheduler or compute scheduler. */
  lemma NeverOnTwoPthreads(start: State, ops: seq<Step>, t: Pthread, t': Pthread, i: nat)
    requires Inv(start) && Legal(start, ops)
    requires Executes(Exec(start, ops), t, i) && Executes(Exec(start, ops), t', i)
    ensures t == t'
  {
    RunKeepsInv(start, ops);
    var s := Exec(start, ops);
    ExecutedOnce(s, t, i);
    ExecutedOnce(s, t', i);
  }

  /** Where an lthread executes can be read off its place and its two schedulers. */
  lemma ExecutedOnce(s: State, t: Pthread, i: nat)
    requires Inv(s) && Executes(s, t, i)
    ensures i in s.lts && t == if s.at[i] == OnWorker then WorkerThread(s.lts[i].worker) else HomeThread(s.lts[i].home)
  {
    match t
    case HomeThread(h) =>
      KnowHome(s, h);
      Know(s, i);
    case WorkerThread(k) =>
      KnowWorker(s, k);
      Know(s, i);
  }

  /** What is queued on a compute scheduler is queued on one that is in the list; one that has left
      the list to be freed has nothing, in its queue or in its hand. */
  lemma OnlyListedHaveWork(start: State, ops: seq<Step>, k: nat)
    requires Inv(start) && Legal(start, ops) && k in Exec(start, ops).workers
    ensures var s := Exec(start, ops);
            k !in s.list ==> s.workers[k].queue == [] && WorkerHolds(s.workers[k].pc) == {}
  {
    RunKeepsInv(start, ops);
    KnowWorker(Exec(start, ops), k);
  }

  /** While a scheduler lets a compute scheduler have an lthread, that compute scheduler is alive. */
  lemma HandedToListed(start: State, ops: seq<Step>, h: nat, i: nat)
    requires Inv(start) && Legal(start, ops) && h in Exec(start, ops).homes
    requires Exec(start, ops).homes[h].pc in {Leaving(i), Adding(i)}
    ensures var s := Exec(start, ops); i in s.lts && s.lts[i].worker in s.list
  {
    RunKeepsInv(start, ops);
    var s := Exec(start, ops);
    KnowHome(s, h);
    Know(s, i);
  }

  predicate IsDone(m: Home) {
    m.waiting == {} && m.busy == {} && m.sleeping == {} && m.ready == []
  }

  /** Every lthread that has not exited is held by its scheduler, and what waits in `defer` is also in
      `busy`. */
  lemma SuspendedAreHeld(start: State, ops: seq<Step>, i: nat)
    requires Inv(start) && Legal(start, ops) && i in Exec(start, ops).lts
    ensures var s := Exec(start, ops);
            && s.lts[i].home in s.homes
            && var m := s.homes[s.lts[i].home];
            && (i in m.defer ==> i in m.busy)
            && (!s.lts[i].exited && i !in Mentions(m.pc) ==>
                  i in m.ready || i in m.sleeping || i in m.waiting || i in m.busy)
  {
    RunKeepsInv(start, ops);
    Know(Exec(start, ops), i);
  }

  lemma DoneLthread(m: Home, i: nat, lt: Lthread, p: Place)
    requires HomeSide(m, i, lt, p) && m.pc == Loop && IsDone(m)
    ensures lt.exited && i !in m.defer
  {
  }

  lemma SomeOrNone(q: seq<nat>)
    ensures q == [] || exists i :: i in q
  {
    if q != [] {
      assert q[0] in q;
    }
  }

  lemma DoneState(s: State, h: nat)
    requires Inv(s) && h in s.homes && s.homes[h].pc == Loop && IsDone(s.homes[h])
    ensures s.homes[h].defer == [] && forall i :: i in s.lts && s.lts[i].home == h ==> s.lts[i].exited
  {
    KnowHome(s, h);
    forall i | i in s.lts && s.lts[i].home == h ensures s.lts[i].exited && i !in s.homes[h].defer {
      Know(s, i);
      DoneLthread(s.homes[h], i, s.lts[i], s.at[i]);
    }
    SomeOrNone(s.homes[h].defer);
  }

  /** `lthread_run` leaves its loop only when all its lthreads have exited, though
      `_lthread_sched_isdone` does not look at `defer`. */
  lemma DoneMeansExited(start: State, ops: seq<Step>, h: nat)
    requires Inv(start) && Legal(start, ops) && h in Exec(start, ops).homes
    requires Exec(start, ops).homes[h].pc == Loop && IsDone(Exec(start, ops).homes[h])
    ensures var s := Exec(start, ops);
            s.homes[h].defer == [] && forall i :: i in s.lts && s.lts[i].home == h ==> s.lts[i].exited
  {
    RunKeepsInv(start, ops);
    DoneState(Exec(start, ops), h);
  }
}
