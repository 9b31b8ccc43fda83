/** A run of two schedulers in which an lthread of one signals an lthread of the other, and that lthread
    then executes on both pthreads at once.  The model keeps the queues well formed where the source does
    not: the source unlinks the lthread through the ready list of its own scheduler and once more from the
    queue of the condition, while here it leaves the list it is in, and a second removal does nothing.
    The two pthreads execute the lthread all the same. */
module ForeignSignal {
  import opened Basics
  import opened Handoff
  import opened HandoffRuns

  /** Schedulers 0 and 1, their lthreads 0 and 1, and one condition variable. */
  function Duo(m0: Home, m1: Home, lt0: Lthread, lt1: Lthread, q: seq<nat>, p0: Place, p1: Place): State {
    State(map[0 := m0, 1 := m1], map[], [], map[0 := lt0, 1 := lt1], map[0 := q], map[0 := p0, 1 := p1])
  }

  function Lt(home: nat, exited: bool, expired: bool, cond: Option<nat>): Lthread {
    Lthread(home, 0, false, false, exited, expired, cond)
  }

  /** The run `ops` from the start leads to `t`. */
  ghost predicate Leads(ops: seq<Step>, t: State) {
    Possible(Start({0, 1}, {0}), ops) && Exec(Start({0, 1}, {0}), ops) == t
  }

  ghost predicate Takes(t: State, st: Step, t': State) {
    Enabled(t, st) && Next(t, st) == t'
  }

  lemma Extend(ops: seq<Step>, t: State, st: Step)
    requires Leads(ops, t) && Enabled(t, st)
    ensures Leads(ops + [st], Next(t, st))
    ensures !(st.AtHome? && st.act.Signal?) && OwnSignals(Start({0, 1}, {0}), ops) ==>
              OwnSignals(Start({0, 1}, {0}), ops + [st])
  {
    assert (ops + [st])[..|ops + [st]| - 1] == ops;
  }

  lemma Pair<T>(a: T, b: T, x: T)
    ensures map[0 := a, 1 := b][0 := x] == map[0 := x, 1 := b]
    ensures map[0 := a, 1 := b][1 := x] == map[0 := a, 1 := x]
  {
  }

  lemma One<T>(a: T, x: T)
    ensures map[0 := a][0 := x] == map[0 := x]
  {
  }

  /** Updates of such a state, written out. */
  lemma Updates(s: State, m: Home, lt: Lthread, q: seq<nat>, p: Place)
    requires s.homes.Keys == s.lts.Keys == s.at.Keys == {0, 1} && s.conds.Keys == {0}
    requires s == Duo(s.homes[0], s.homes[1], s.lts[0], s.lts[1], s.conds[0], s.at[0], s.at[1])
    ensures s.homes[0 := m] == map[0 := m, 1 := s.homes[1]] && s.homes[1 := m] == map[0 := s.homes[0], 1 := m]
    ensures s.lts[0 := lt] == map[0 := lt, 1 := s.lts[1]] && s.lts[1 := lt] == map[0 := s.lts[0], 1 := lt]
    ensures s.at[0 := p] == map[0 := p, 1 := s.at[1]] && s.at[1 := p] == map[0 := s.at[0], 1 := p]
    ensures s.conds[0 := q] == map[0 := q]
  {
    Pair(s.homes[0], s.homes[1], m);
    Pair(s.lts[0], s.lts[1], lt);
    Pair(s.at[0], s.at[1], p);
    One(s.conds[0], q);
  }

  /** Both lthreads are created. */
  function S2(): State {
    Duo(Home([0], {}, {}, {}, [], Loop), Home([1], {}, {}, {}, [], Loop),
        Lt(0, false, false, None), Lt(1, false, false, None), [], Queued, Queued)
  }

  function S3(): State {
    Duo(Home([], {}, {}, {}, [], Popped(0)), Home([1], {}, {}, {}, [], Loop),
        Lt(0, false, false, None), Lt(1, false, false, None), [], OnHome, Queued)
  }

  function S4(): State {
    Duo(Home([], {}, {}, {}, [], Running(0)), Home([1], {}, {}, {}, [], Loop),
        Lt(0, false, false, None), Lt(1, false, false, None), [], OnHome, Queued)
  }

  /** Lthread 0 waits for the condition variable, with a timer. */
  function S5(): State {
    Duo(Home([], {0}, {}, {0}, [], Back(0)), Home([1], {}, {}, {}, [], Loop),
        Lt(0, false, false, Some(0)), Lt(1, false, false, None), [0], Blocked(true, false), Queued)
  }

  function S6(): State {
    Duo(Home([], {0}, {}, {0}, [], Clearing(0)), Home([1], {}, {}, {}, [], Loop),
        Lt(0, false, false, Some(0)), Lt(1, false, false, None), [0], Blocked(true, false), Queued)
  }

  function S7(): State {
    Duo(Home([], {0}, {}, {0}, [], Loop), Home([1], {}, {}, {}, [], Loop),
        Lt(0, false, false, Some(0)), Lt(1, false, false, None), [0], Blocked(true, false), Queued)
  }

  function S8(): State {
    Duo(Home([], {0}, {}, {0}, [], Loop), Home([], {}, {}, {}, [], Popped(1)),
        Lt(0, false, false, Some(0)), Lt(1, false, false, None), [0], Blocked(true, false), OnHome)
  }

  /** Lthread 1 runs on scheduler 1. */
  function S9(): State {
    Duo(Home([], {0}, {}, {0}, [], Loop), Home([], {}, {}, {}, [], Running(1)),
        Lt(0, false, false, Some(0)), Lt(1, false, false, None), [0], Blocked(true, false), OnHome)
  }

  /** The timer has run out and scheduler 0 is about to resume lthread 0, which is still in the queue. */
  function S10(): State {
    Duo(Home([], {}, {}, {0}, [], Popped(0)), Home([], {}, {}, {}, [], Running(1)),
        Lt(0, false, true, Some(0)), Lt(1, false, false, None), [0], OnHome, OnHome)
  }

  /** Lthread 1 has signalled: lthread 0 is ready on scheduler 1 too. */
  function S11(): State {
    Duo(Home([], {}, {}, {0}, [], Popped(0)), Home([0], {}, {}, {}, [], Running(1)),
        Lt(0, false, true, Some(0)), Lt(1, false, false, None), [], Queued, OnHome)
  }

  function S12(): State {
    Duo(Home([], {}, {}, {0}, [], Popped(0)), Home([0], {}, {}, {}, [], Back(1)),
        Lt(0, false, true, Some(0)), Lt(1, true, false, None), [], Queued, Exited)
  }

  function S13(): State {
    Duo(Home([], {}, {}, {0}, [], Popped(0)), Home([0], {}, {}, {}, [], Loop),
        Lt(0, false, true, Some(0)), Lt(1, true, false, None), [], Queued, Exited)
  }

  /** Scheduler 1 takes lthread 0 as well. */
  function S14(): State {
    Duo(Home([], {}, {}, {0}, [], Popped(0)), Home([], {}, {}, {}, [], Popped(0)),
        Lt(0, false, true, Some(0)), Lt(1, true, false, None), [], OnHome, Exited)
  }

  function S15(): State {
    Duo(Home([], {}, {}, {}, [], Running(0)), Home([], {}, {}, {}, [], Popped(0)),
        Lt(0, false, true, None), Lt(1, true, false, None), [], OnHome, Exited)
  }

  /** Both schedulers run it. */
  function S16(): State {
    Duo(Home([], {}, {}, {}, [], Running(0)), Home([], {}, {}, {}, [], Running(0)),
        Lt(0, false, true, None), Lt(1, true, false, None), [], OnHome, Exited)
  }

  lemma Step3()
    ensures Takes(S2(), AtHome(0, PopReady), S3())
  {
    var s, t := S2(), S3();
    assert s.homes[0].ready[1..] == [];
    Updates(s, t.homes[0], t.lts[0], t.conds[0], t.at[0]);
  }

  lemma Step4()
    ensures Takes(S3(), AtHome(0, Resume), S4())
  {
    var s, t := S3(), S4();
    Updates(s, t.homes[0], t.lts[0], t.conds[0], t.at[0]);
  }

  lemma Step5()
    ensures Takes(S4(), AtHome(0, Suspend(CondWait(0, true))), S5())
  {
    var s, t := S4(), S5();
    assert s.homes[0].sleeping + {0} == {0} && s.homes[0].busy + {0} == {0} && s.conds[0] + [0] == [0];
    Updates(s, t.homes[0], t.lts[0], t.conds[0], t.at[0]);
  }

  lemma Step6()
    ensures Takes(S5(), AtHome(0, AfterSwitch), S6())
  {
    var s, t := S5(), S6();
    Updates(s, t.homes[0], t.lts[0], t.conds[0], t.at[0]);
  }

  lemma Step7()
    ensures Takes(S6(), AtHome(0, Clear), S7())
  {
    var s, t := S6(), S7();
    Updates(s, t.homes[0], t.lts[0], t.conds[0], t.at[0]);
  }

  lemma Step8()
    ensures Takes(S7(), AtHome(1, PopReady), S8())
  {
    var s, t := S7(), S8();
    assert s.homes[1].ready[1..] == [];
    Updates(s, t.homes[1], t.lts[1], t.conds[0], t.at[1]);
  }

  lemma Step9()
    ensures Takes(S8(), AtHome(1, Resume), S9())
  {
    var s, t := S8(), S9();
    Updates(s, t.homes[1], t.lts[1], t.conds[0], t.at[1]);
  }

  lemma Step10()
    ensures Takes(S9(), AtHome(0, Expire(0)), S10())
  {
    var s, t := S9(), S10();
    assert s.homes[0].sleeping - {0} == {} && s.homes[0].waiting - {0} == {};
    Updates(s, t.homes[0], t.lts[0], t.conds[0], t.at[0]);
  }

  lemma Step11()
    ensures Takes(S10(), AtHome(1, Signal(0)), S11())
  {
    var s, t := S10(), S11();
    assert s.homes[0].sleeping - {0} == {} && s.homes[1].ready + [0] == [0] && s.conds[0][1..] == [];
    Updates(s, t.homes[1], t.lts[0], t.conds[0], t.at[0]);
  }

  lemma Step12()
    ensures Takes(S11(), AtHome(1, Suspend(Exit)), S12())
  {
    var s, t := S11(), S12();
    Updates(s, t.homes[1], t.lts[1], t.conds[0], t.at[1]);
  }

  lemma Step13()
    ensures Takes(S12(), AtHome(1, AfterSwitch), S13())
  {
    var s, t := S12(), S13();
    Updates(s, t.homes[1], t.lts[1], t.conds[0], t.at[1]);
  }

  lemma Step14()
    ensures Takes(S13(), AtHome(1, PopReady), S14())
  {
    var s, t := S13(), S14();
    assert s.homes[1].ready[1..] == [];
    Updates(s, t.homes[1], t.lts[0], t.conds[0], t.at[0]);
  }

  lemma Step15()
    ensures Takes(S14(), AtHome(0, Resume), S15())
  {
    var s, t := S14(), S15();
    assert s.homes[0].busy - {0} == {} && Remove(s.conds[0], 0) == [];
    Updates(s, t.homes[0], t.lts[0], t.conds[0], t.at[0]);
  }

  lemma Step16()
    ensures Takes(S15(), AtHome(1, Resume), S16())
  {
    var s, t := S15(), S16();
    Updates(s, t.homes[1], t.lts[0], t.conds[0], t.at[0]);
  }

  /** Scheduler 0 has created lthread 0. */
  function S1(): State {
    State(map[0 := Home([0], {}, {}, {}, [], Loop), 1 := Home([], {}, {}, {}, [], Loop)], map[], [],
          map[0 := Lt(0, false, false, None)], map[0 := []], map[0 := Queued])
  }

  lemma Step1()
    ensures Takes(Start({0, 1}, {0}), AtHome(0, Spawn(0)), S1())
  {
    var m := Home([], {}, {}, {}, [], Loop);
    assert Start({0, 1}, {0}) == State(map[0 := m, 1 := m], map[], [], map[], map[0 := []], map[]);
    assert m.ready + [0] == [0];
    Pair(m, m, m.(ready := [0]));
  }

  lemma Step2()
    ensures Takes(S1(), AtHome(1, Spawn(1)), S2())
  {
    var s := S1();
    assert s.homes[1].ready + [1] == [1];
    Pair(s.homes[0], s.homes[1], s.homes[1].(ready := [1]));
  }

  /** One more step that is not a signal. */
  lemma Then(ops: seq<Step>, t: State, st: Step, t': State)
    requires Leads(ops, t) && Legal(Start({0, 1}, {0}), ops) && Takes(t, st, t') && !(st.AtHome? && st.act.Signal?)
    ensures Leads(ops + [st], t') && Legal(Start({0, 1}, {0}), ops + [st])
  {
    Extend(ops, t, st);
  }

  /** One more step of any kind. */
  lemma ThenAny(ops: seq<Step>, t: State, st: Step, t': State)
    requires Leads(ops, t) && Takes(t, st, t')
    ensures Leads(ops + [st], t')
  {
    Extend(ops, t, st);
  }

  /** A legal run to the moment before the signal. */
  lemma BeforeSignal() returns (ops: seq<Step>)
    ensures Leads(ops, S10()) && Legal(Start({0, 1}, {0}), ops)
  {
    ops := [];
    Step1();
    Then(ops, Start({0, 1}, {0}), AtHome(0, Spawn(0)), S1());
    ops := ops + [AtHome(0, Spawn(0))];
    Step2();
    Then(ops, S1(), AtHome(1, Spawn(1)), S2());
    ops := ops + [AtHome(1, Spawn(1))];
    Step3();
    Then(ops, S2(), AtHome(0, PopReady), S3());
    ops := ops + [AtHome(0, PopReady)];
    Step4();
    Then(ops, S3(), AtHome(0, Resume), S4());
    ops := ops + [AtHome(0, Resume)];
    Step5();
    Then(ops, S4(), AtHome(0, Suspend(CondWait(0, true))), S5());
    ops := ops + [AtHome(0, Suspend(CondWait(0, true)))];
    Step6();
    Then(ops, S5(), AtHome(0, AfterSwitch), S6());
    ops := ops + [AtHome(0, AfterSwitch)];
    Step7();
    Then(ops, S6(), AtHome(0, Clear), S7());
    ops := ops + [AtHome(0, Clear)];
    Step8();
    Then(ops, S7(), AtHome(1, PopReady), S8());
    ops := ops + [AtHome(1, PopReady)];
    Step9();
    Then(ops, S8(), AtHome(1, Resume), S9());
    ops := ops + [AtHome(1, Resume)];
    Step10();
    Then(ops, S9(), AtHome(0, Expire(0)), S10());
    ops := ops + [AtHome(0, Expire(0))];
  }

  lemma Appended(before: seq<Step>, rest: seq<Step>)
    requires |rest| == 5
    ensures before + [rest[0]] + [rest[1]] + [rest[2]] + [rest[3]] + [rest[4]] == before + rest
  {
  }

  lemma AfterSignal(before: seq<Step>) returns (rest: seq<Step>)
    requires Leads(before, S11())
    ensures Leads(before + rest, S16())
  {
    var ops := before;
    Step12();
    ThenAny(ops, S11(), AtHome(1, Suspend(Exit)), S12());
    ops := ops + [AtHome(1, Suspend(Exit))];
    Step13();
    ThenAny(ops, S12(), AtHome(1, AfterSwitch), S13());
    ops := ops + [AtHome(1, AfterSwitch)];
    Step14();
    ThenAny(ops, S13(), AtHome(1, PopReady), S14());
    ops := ops + [AtHome(1, PopReady)];
    Step15();
    ThenAny(ops, S14(), AtHome(0, Resume), S15());
    ops := ops + [AtHome(0, Resume)];
    Step16();
    ThenAny(ops, S15(), AtHome(1, Resume), S16());
    ops := ops + [AtHome(1, Resume)];
    rest := [AtHome(1, Suspend(Exit)), AtHome(1, AfterSwitch), AtHome(1, PopReady), AtHome(0, Resume),
             AtHome(1, Resume)];
    Appended(before, rest);
  }

  /** A run that is legal up to one signal, of lthread 1 to lthread 0 of the other scheduler, and after
      which lthread 0 executes on both pthreads. */
  lemma RunsOnBoth() returns (before: seq<Step>, rest: seq<Step>)
    ensures Legal(Start({0, 1}, {0}), before)
    ensures Possible(Start({0, 1}, {0}), before + [AtHome(1, Signal(0))] + rest)
    ensures var s := Exec(Start({0, 1}, {0}), before + [AtHome(1, Signal(0))] + rest);
            Executes(s, HomeThread(0), 0) && Executes(s, HomeThread(1), 0)
  {
    before := BeforeSignal();
    Step11();
    ThenAny(before, S10(), AtHome(1, Signal(0)), S11());
    rest := AfterSignal(before + [AtHome(1, Signal(0))]);
  }
}
