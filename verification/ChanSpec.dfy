/** The channel protocol of src/chan.c as a state machine over values.

    lthreads switch only inside `lthread_cond_wait`, so one select attempt up to the point where
    it returns or blocks is one atomic step; so are a close, a timeout and the resumption of a
    lthread that was signalled.  `log` is an append-only record of every slot a message was taken
    from or written to; nothing in the protocol reads it.  All users of a channel are on one
    scheduler: a partner is woken by `lthread_cond_signal`, which is unsafe across schedulers
    (`ForeignSignal`), and another pthread could run in the middle of a step. */
module ChanSpec {
  import opened Basics

  /** A `void *`: NULL is both a legal message and the end marker, so the log keeps them apart. */
  datatype Msg = Null | Ptr(addr: nat)

  /** `struct chan_wait`: position `idx` of selector `sel`, queued on one channel. */
  datatype Wait = Wait(sel: nat, idx: nat)

  /** `struct lthread_chan`; `cap == 0` stands for a channel without a queue. */
  datatype Chan = Chan(cap: nat, buf: seq<Msg>, closed: bool, sendq: seq<Wait>, recvq: seq<Wait>)

  /** Where the lthread that owns a selector is: not in a select (with the value its last select
      returned), inside `lthread_cond_wait`, or signalled and waiting in the ready queue. */
  datatype Phase = Idle(result: int) | Blocked | Woken

  /** `struct lthread_sel`; positions below `writes` send, the others receive.  `mark` is the
      length the log had when the current (or last) call began. */
  datatype Sel = Sel(chans: seq<nat>, writes: nat, msgs: seq<Msg>, target: int, phase: Phase, mark: nat)

  datatype Kind = Put | Take | Eof

  datatype Event = Event(kind: Kind, chan: nat, sel: nat, idx: nat, msg: Msg)

  datatype State = State(chans: map<nat, Chan>, sels: map<nat, Sel>, log: seq<Event>)

  /* ---------- Projections of the log ---------- */

  /** The messages of the events of kind `k` on channel `c`, oldest first. */
  function Msgs(log: seq<Event>, k: Kind, c: nat): seq<Msg> {
    if log == [] then []
    else
      var e := log[|log| - 1];
      Msgs(log[..|log| - 1], k, c) + if e.kind == k && e.chan == c then [e.msg] else []
  }

  /** The events of selector `id` at or after position `mark`, oldest first. */
  function Own(log: seq<Event>, id: nat, mark: nat): seq<Event>
    requires mark <= |log|
  {
    if |log| == mark then []
    else
      var e := log[|log| - 1];
      Own(log[..|log| - 1], id, mark) + if e.sel == id then [e] else []
  }

  ghost predicate HasEof(log: seq<Event>, c: nat) {
    exists p :: 0 <= p < |log| && log[p].kind == Eof && log[p].chan == c
  }

  /** Once an end marker was handed out on `c`, no message moves on `c` any more. */
  ghost predicate QuietAfterEof(log: seq<Event>, c: nat) {
    forall p, q :: 0 <= p < q < |log| && log[p].chan == c && log[p].kind == Eof && log[q].chan == c
                   ==> log[q].kind == Eof
  }

  lemma MsgsAppend(log: seq<Event>, e: Event, k: Kind, c: nat)
    ensures Msgs(log + [e], k, c)
         == Msgs(log, k, c) + if e.kind == k && e.chan == c then [e.msg] else []
  {
    assert (log + [e])[..|log|] == log;
  }

  lemma OwnAppend(log: seq<Event>, e: Event, id: nat, mark: nat)
    requires mark <= |log|
    ensures Own(log + [e], id, mark) == Own(log, id, mark) + if e.sel == id then [e] else []
  {
    assert (log + [e])[..|log|] == log;
  }

  /* ---------- Wait queues ---------- */

  /** The queue without the waits of selector `id`, in the same order. */
  function Drop(q: seq<Wait>, id: nat): (r: seq<Wait>)
    ensures forall w :: w in r <==> w in q && w.sel != id
    ensures |r| <= |q|
  {
    if q == [] then []
    else
      var w := q[|q| - 1];
      Drop(q[..|q| - 1], id) + if w.sel == id then [] else [w]
  }

  lemma {:induction false} DropShrinks(q: seq<Wait>, k: nat)
    requires k < |q|
    ensures |Drop(q, q[k].sel)| < |q|
  {
    if k == |q| - 1 {
    } else {
      DropShrinks(q[..|q| - 1], k);
    }
  }

  lemma {:induction false} DropKeepsNoDup(q: seq<Wait>, id: nat)
    requires NoDup(q)
    ensures NoDup(Drop(q, id))
  {
    if q == [] {
    } else {
      DropKeepsNoDup(q[..|q| - 1], id);
      assert q[|q| - 1] !in q[..|q| - 1];
    }
  }

  /** The first position of `c` in `chans`, or |chans|. */
  function Pos(chans: seq<nat>, c: nat): (i: nat)
    ensures i <= |chans|
    ensures i < |chans| ==> chans[i] == c
    ensures forall j :: 0 <= j < i ==> chans[j] != c
  {
    if chans == [] then 0 else if chans[0] == c then 0 else
      var r := Pos(chans[1..], c);
      assert forall j :: 0 < j < r + 1 ==> chans[j] == chans[1..][j - 1];
      r + 1
  }

  /* ---------- Effects ---------- */

  /** What a caller of a select must provide. */
  ghost predicate Shape(s: State, sel: Sel) {
    && sel.writes <= |sel.chans| == |sel.msgs|
    && (forall i :: 0 <= i < |sel.chans| ==> sel.chans[i] in s.chans)
    && NoDup(sel.chans)
  }

  /** `w` is the wait of a blocked selector and belongs on channel `c`. */
  ghost predicate WaitOk(s: State, c: nat, w: Wait, sending: bool) {
    && w.sel in s.sels
    && var sel := s.sels[w.sel];
    && sel.phase == Blocked
    && w.idx < |sel.chans| == |sel.msgs|
    && sel.chans[w.idx] == c
    && (w.idx < sel.writes <==> sending)
  }

  /** `sel_remove_all_chans`: selector `id` leaves every queue. */
  function Detach(chans: map<nat, Chan>, id: nat): map<nat, Chan> {
    map c | c in chans :: Without(chans[c], id)
  }

  function Without(ch: Chan, id: nat): Chan {
    ch.(sendq := Drop(ch.sendq, id), recvq := Drop(ch.recvq, id))
  }

  /** Completes the blocked selector that owns `w`: message, target, queues, wake-up. */
  function Hand(s: State, w: Wait, m: Msg, k: Kind): State
    requires w.sel in s.sels
    requires w.idx < |s.sels[w.sel].chans| == |s.sels[w.sel].msgs|
  {
    var sel := s.sels[w.sel];
    State(Detach(s.chans, w.sel),
          s.sels[w.sel := sel.(msgs := sel.msgs[w.idx := m], target := w.idx, phase := Woken)],
          s.log + [Event(k, sel.chans[w.idx], w.sel, w.idx, m)])
  }

  predicate SendReady(ch: Chan) {
    |ch.buf| < ch.cap || ch.recvq != []
  }

  predicate RecvReady(ch: Chan) {
    ch.buf != [] || ch.sendq != [] || ch.closed
  }

  /** The first wait of each queue of `c` belongs to a blocked selector. */
  ghost predicate HeadsOk(s: State, c: nat)
    requires c in s.chans
  {
    && (s.chans[c].sendq != [] ==> WaitOk(s, c, s.chans[c].sendq[0], true))
    && (s.chans[c].recvq != [] ==> WaitOk(s, c, s.chans[c].recvq[0], false))
  }

  ghost predicate CanTry(s: State, id: nat, i: nat) {
    && id in s.sels && i < |s.sels[id].chans| == |s.sels[id].msgs|
    && s.sels[id].chans[i] in s.chans
    && HeadsOk(s, s.sels[id].chans[i])
  }

  /** The exchange of selector `id` itself at position `i`: its channel's buffer becomes `buf`. */
  function Move(s: State, id: nat, i: nat, buf: seq<Msg>, k: Kind, m: Msg): State
    requires id in s.sels && i < |s.sels[id].chans| == |s.sels[id].msgs| && s.sels[id].chans[i] in s.chans
  {
    var sel := s.sels[id];
    var c := sel.chans[i];
    State(s.chans[c := s.chans[c].(buf := buf)],
          s.sels[id := sel.(target := i, msgs := sel.msgs[i := m])],
          s.log + [Event(k, c, id, i, m)])
  }

  /** `chan_try_send` on a channel that is ready for it. */
  ghost function SendOn(s: State, id: nat, i: nat): State
    requires CanTry(s, id, i) && !s.sels[id].phase.Blocked?
    requires SendReady(s.chans[s.sels[id].chans[i]])
  {
    var ch := s.chans[s.sels[id].chans[i]];
    var m := s.sels[id].msgs[i];
    var room := |ch.buf| < ch.cap;
    var filled := if room then ch.buf + [m] else ch.buf;
    if ch.recvq == [] then
      Move(s, id, i, filled, Put, m)
    else if room then
      Hand(Move(s, id, i, filled[1..], Put, m), ch.recvq[0], filled[0], Take)
    else
      Hand(Move(s, id, i, filled, Put, m), ch.recvq[0], m, Take)
  }

  /** `chan_try_recv` on a channel that is ready for it. */
  ghost function RecvOn(s: State, id: nat, i: nat): State
    requires CanTry(s, id, i) && !s.sels[id].phase.Blocked?
    requires RecvReady(s.chans[s.sels[id].chans[i]])
  {
    var ch := s.chans[s.sels[id].chans[i]];
    if ch.sendq == [] then
      if ch.buf != [] then Move(s, id, i, ch.buf[1..], Take, ch.buf[0])
      else Move(s, id, i, [], Eof, Null)
    else
      var v := s.sels[ch.sendq[0].sel].msgs[ch.sendq[0].idx];
      if ch.buf != [] then Hand(Move(s, id, i, ch.buf[1..] + [v], Take, ch.buf[0]), ch.sendq[0], v, Put)
      else Move(Hand(s, ch.sendq[0], v, Put), id, i, [], Take, v)
  }

  /** Queues selector `id` on each of its channels, at the tail. */
  function Enqueue(chans: map<nat, Chan>, sel: Sel, id: nat): map<nat, Chan> {
    map c | c in chans :: AddWait(chans[c], sel, id, Pos(sel.chans, c))
  }

  function AddWait(ch: Chan, sel: Sel, id: nat, i: nat): Chan {
    if i >= |sel.chans| then ch
    else if i < sel.writes then ch.(sendq := ch.sendq + [Wait(id, i)])
    else ch.(recvq := ch.recvq + [Wait(id, i)])
  }

  /** The first position at or after `i` whose channel is ready, sends before receives; |chans|
      when there is none. */
  ghost function FirstReady(s: State, sel: Sel, i: nat): (r: nat)
    requires Shape(s, sel) && i <= |sel.chans|
    ensures i <= r <= |sel.chans|
    ensures r < |sel.chans| ==> Ready(s, sel, r)
    ensures forall j :: i <= j < r ==> !Ready(s, sel, j)
    decreases |sel.chans| - i
  {
    if i == |sel.chans| || Ready(s, sel, i) then i else FirstReady(s, sel, i + 1)
  }

  ghost predicate Ready(s: State, sel: Sel, i: nat)
    requires i < |sel.chans| && sel.chans[i] in s.chans
  {
    if i < sel.writes then SendReady(s.chans[sel.chans[i]]) else RecvReady(s.chans[sel.chans[i]])
  }

  /* ---------- Invariants ---------- */

  ghost predicate QueueInv(s: State, c: nat)
    requires c in s.chans
  {
    var ch := s.chans[c];
    && (forall k :: 0 <= k < |ch.sendq| ==> WaitOk(s, c, ch.sendq[k], true))
    && (forall k :: 0 <= k < |ch.recvq| ==> WaitOk(s, c, ch.recvq[k], false))
    && NoDup(ch.sendq) && NoDup(ch.recvq)
  }

  /** Every wait in any queue belongs to a blocked selector and stands there once. */
  ghost predicate Queues(s: State) {
    forall c {:trigger QueueInv(s, c)} :: c in s.chans ==> QueueInv(s, c)
  }

  /** The call of `id` exchanged exactly once, at position `r`, and slot `r` holds that message. */
  ghost predicate Exchanged(log: seq<Event>, sel: Sel, id: nat, r: nat) {
    && sel.mark <= |log|
    && r < |sel.chans| == |sel.msgs|
    && var own := Own(log, id, sel.mark);
    && |own| == 1
    && own[0].chan == sel.chans[r] && own[0].idx == r && own[0].msg == sel.msgs[r]
    && (own[0].kind == Put <==> r < sel.writes)
  }

  ghost predicate Untouched(log: seq<Event>, sel: Sel, id: nat) {
    sel.mark <= |log| && Own(log, id, sel.mark) == []
  }

  /** A blocked selector is queued at every one of its positions. */
  ghost predicate Attached(s: State, sel: Sel, id: nat)
    requires forall i :: 0 <= i < |sel.chans| ==> sel.chans[i] in s.chans
  {
    forall i :: 0 <= i < |sel.chans| ==>
      var ch := s.chans[sel.chans[i]];
      Wait(id, i) in (if i < sel.writes then ch.sendq else ch.recvq)
  }

  ghost predicate SelInv(s: State, id: nat)
    requires id in s.sels
  {
    var sel := s.sels[id];
    match sel.phase
    case Blocked =>
      Shape(s, sel) && sel.target == -1 && Untouched(s.log, sel, id) && Attached(s, sel, id)
    case Woken =>
      sel.target >= 0 && Exchanged(s.log, sel, id, sel.target)
    case Idle(r) =>
      && sel.target == -1
      && (r < 0 ==> Untouched(s.log, sel, id))
      && (r >= 0 ==> Exchanged(s.log, sel, id, r))
  }

  /** Every selector but `x` is in order. */
  ghost predicate SelectorsBut(s: State, x: int) {
    forall id {:trigger SelInv(s, id)} :: id in s.sels && id != x ==> SelInv(s, id)
  }

  /** No sender and receiver are ever both blocked on one channel, and none waits without cause. */
  ghost predicate BufInv(ch: Chan) {
    && |ch.buf| <= ch.cap
    && (ch.sendq != [] ==> |ch.buf| == ch.cap)
    && (ch.recvq != [] ==> ch.buf == [] && ch.sendq == [])
  }

  ghost predicate OpenInv(ch: Chan) {
    ch.recvq != [] ==> !ch.closed
  }

  /** Nothing is lost, duplicated or reordered, and the end marker comes last. */
  ghost predicate LogInv(log: seq<Event>, ch: Chan, c: nat) {
    && Msgs(log, Put, c) == Msgs(log, Take, c) + ch.buf
    && (HasEof(log, c) ==> ch.closed && ch.buf == [] && ch.sendq == [])
    && QuietAfterEof(log, c)
  }

  ghost predicate ChanInv(log: seq<Event>, ch: Chan, c: nat) {
    BufInv(ch) && OpenInv(ch) && LogInv(log, ch, c)
  }

  ghost predicate Known(s: State) {
    forall p :: 0 <= p < |s.log| ==> s.log[p].chan in s.chans
  }

  ghost predicate Channels(s: State) {
    Known(s) && forall c {:trigger ChanInv(s.log, s.chans[c], c)} :: c in s.chans ==> ChanInv(s.log, s.chans[c], c)
  }

  ghost predicate Inv(s: State) {
    Queues(s) && SelectorsBut(s, -1) && Channels(s)
  }

  /** `w` waits on `c`, and completing it as `k` with message `m` is what the protocol does. */
  ghost predicate Handable(s: State, c: nat, w: Wait, m: Msg, k: Kind) {
    && c in s.chans && WaitOk(s, c, w, k == Put)
    && (k == Put ==> m == s.sels[w.sel].msgs[w.idx])
  }

  lemma HandKeepsQueue(s: State, c: nat, w: Wait, m: Msg, k: Kind, d: nat)
    requires d in s.chans && QueueInv(s, d)
    requires Handable(s, c, w, m, k)
    ensures QueueInv(Hand(s, w, m, k), d)
  {
    var s' := Hand(s, w, m, k);
    DropKeepsNoDup(s.chans[d].sendq, w.sel);
    DropKeepsNoDup(s.chans[d].recvq, w.sel);
    forall j | 0 <= j < |s'.chans[d].sendq| ensures WaitOk(s', d, s'.chans[d].sendq[j], true) {
      assert s'.chans[d].sendq[j] in s.chans[d].sendq;
    }
    forall j | 0 <= j < |s'.chans[d].recvq| ensures WaitOk(s', d, s'.chans[d].recvq[j], false) {
      assert s'.chans[d].recvq[j] in s.chans[d].recvq;
    }
  }

  lemma HandKeepsSel(s: State, c: nat, w: Wait, m: Msg, k: Kind, id: nat)
    requires id in s.sels && SelInv(s, id)
    requires Handable(s, c, w, m, k)
    ensures SelInv(Hand(s, w, m, k), id)
  {
    var s' := Hand(s, w, m, k);
    OwnAppend(s.log, s'.log[|s.log|], id, s.sels[id].mark);
  }

  /** Completing a queued waiter keeps every other selector and every queue in order. */
  lemma HandKeeps(s: State, c: nat, w: Wait, m: Msg, k: Kind, x: int)
    requires Queues(s) && SelectorsBut(s, x)
    requires Handable(s, c, w, m, k)
    ensures var s' := Hand(s, w, m, k); Queues(s') && SelectorsBut(s', x)
  {
    var s' := Hand(s, w, m, k);
    forall d | d in s'.chans ensures QueueInv(s', d) {
      HandKeepsQueue(s, c, w, m, k, d);
    }
    forall id | id in s'.sels && id != x ensures SelInv(s', id) {
      HandKeepsSel(s, c, w, m, k, id);
    }
  }

  /** One more event: what it must satisfy on its own channel; other channels do not notice. */
  lemma LogAppend(log: seq<Event>, e: Event, ch: Chan, ch': Chan, c: nat)
    requires LogInv(log, ch, c)
    requires ch'.closed == ch.closed && (ch.sendq == [] ==> ch'.sendq == [])
    requires e.chan != c ==> ch'.buf == ch.buf
    requires e.chan == c && e.kind == Put ==> !HasEof(log, c) && ch'.buf == ch.buf + [e.msg]
    requires e.chan == c && e.kind == Take ==> ch.buf == [e.msg] + ch'.buf
    requires e.chan == c && e.kind == Eof ==> ch.closed && ch.buf == [] == ch'.buf && ch.sendq == []
    ensures LogInv(log + [e], ch', c)
    ensures HasEof(log + [e], c) <==> HasEof(log, c) || (e.chan == c && e.kind == Eof)
  {
    var log' := log + [e];
    MsgsAppend(log, e, Put, c);
    MsgsAppend(log, e, Take, c);
    if HasEof(log, c) {
      var p :| 0 <= p < |log| && log[p].kind == Eof && log[p].chan == c;
      assert log'[p] == log[p];
    }
    if e.chan == c && e.kind == Eof {
      assert log'[|log|] == e;
    }
  }

  /** Selector `id` is inside a select that has not exchanged anything yet. */
  ghost predicate Calling(s: State, id: nat) {
    && Queues(s) && SelectorsBut(s, id)
    && id in s.sels
    && Shape(s, s.sels[id]) && s.sels[id].phase.Idle? && s.sels[id].target == -1
    && Untouched(s.log, s.sels[id], id)
  }

  /** The end of a select: the target becomes the return value and is reset. */
  function Finish(s: State, id: nat): State
    requires id in s.sels
  {
    s.(sels := s.sels[id := s.sels[id].(phase := Idle(s.sels[id].target), target := -1)])
  }

  ghost predicate OneMore(log: seq<Event>, log': seq<Event>, id: nat) {
    |log'| == |log| + 1 && log' == log + [log'[|log|]] && log'[|log|].sel == id
  }

  /** Changing a selector that is not blocked touches no queue. */
  lemma SwapSel(s: State, s': State, id: nat)
    requires Queues(s) && SelectorsBut(s, id)
    requires id in s.sels && !s.sels[id].phase.Blocked?
    requires s'.sels.Keys == s.sels.Keys && s'.chans.Keys == s.chans.Keys
    requires forall j :: j in s.sels && j != id ==> s'.sels[j] == s.sels[j]
    requires forall c :: c in s.chans ==> s'.chans[c].sendq == s.chans[c].sendq && s'.chans[c].recvq == s.chans[c].recvq
    requires s'.log == s.log || OneMore(s.log, s'.log, id)
    ensures Queues(s') && SelectorsBut(s', id)
  {
    forall c | c in s'.chans ensures QueueInv(s', c) {
      assert QueueInv(s, c);
    }
    forall j | j in s'.sels && j != id ensures SelInv(s', j) {
      assert SelInv(s, j);
      if s'.log != s.log {
        OwnAppend(s.log, s'.log[|s.log|], j, s.sels[j].mark);
      }
    }
  }

  /** The exchange of the calling selector completes its call and disturbs nobody else. */
  lemma MoveKeeps(s: State, id: nat, i: nat, buf: seq<Msg>, k: Kind, m: Msg)
    requires Calling(s, id) && i < |s.sels[id].chans|
    requires if k == Put then i < s.sels[id].writes else s.sels[id].writes <= i
    ensures var s' := Move(s, id, i, buf, k, m);
            && Queues(s') && SelectorsBut(s', id)
            && s'.sels[id].target == i && Exchanged(s'.log, s'.sels[id], id, i)
  {
    var s' := Move(s, id, i, buf, k, m);
    OwnAppend(s.log, s'.log[|s.log|], id, s.sels[id].mark);
    SwapSel(s, s', id);
  }

  /** Completing another selector does not change what the calling selector has done. */
  lemma HandKeepsCaller(s: State, c: nat, w: Wait, m: Msg, k: Kind, id: nat)
    requires id in s.sels && s.sels[id].mark <= |s.log|
    requires Handable(s, c, w, m, k) && w.sel != id
    ensures var s' := Hand(s, w, m, k);
            s'.sels[id] == s.sels[id] && Own(s'.log, id, s.sels[id].mark) == Own(s.log, id, s.sels[id].mark)
  {
    OwnAppend(s.log, Hand(s, w, m, k).log[|s.log|], id, s.sels[id].mark);
  }

  lemma SendKeepsSelectors(s: State, id: nat, i: nat)
    requires Calling(s, id) && i < s.sels[id].writes
    requires SendReady(s.chans[s.sels[id].chans[i]])
    ensures CanTry(s, id, i)
    ensures var s' := SendOn(s, id, i);
            && Queues(s') && SelectorsBut(s', id)
            && s'.sels[id].target == i && Exchanged(s'.log, s'.sels[id], id, i)
  {
    var c := s.sels[id].chans[i];
    var ch := s.chans[c];
    assert QueueInv(s, c);
    var m := s.sels[id].msgs[i];
    var room := |ch.buf| < ch.cap;
    var filled := if room then ch.buf + [m] else ch.buf;
    var left := if room && ch.recvq != [] then filled[1..] else filled;
    MoveKeeps(s, id, i, left, Put, m);
    if ch.recvq != [] {
      var s1 := Move(s, id, i, left, Put, m);
      var v := if room then filled[0] else m;
      HandKeeps(s1, c, ch.recvq[0], v, Take, id);
      HandKeepsCaller(s1, c, ch.recvq[0], v, Take, id);
    }
  }

  /** Nobody waits: the message stays in the buffer. */
  lemma StoreKeepsChan(s: State, id: nat, i: nat, d: nat)
    requires CanTry(s, id, i) && !s.sels[id].phase.Blocked?
    requires SendReady(s.chans[s.sels[id].chans[i]]) && !s.chans[s.sels[id].chans[i]].closed
    requires s.chans[s.sels[id].chans[i]].recvq == []
    requires ChanInv(s.log, s.chans[s.sels[id].chans[i]], s.sels[id].chans[i])
    requires d in s.chans && ChanInv(s.log, s.chans[d], d)
    ensures var s' := SendOn(s, id, i); d in s'.chans && ChanInv(s'.log, s'.chans[d], d)
  {
    var s' := SendOn(s, id, i);
    LogAppend(s.log, s'.log[|s.log|], s.chans[d], s'.chans[d], d);
  }

  /** On a channel with an empty buffer, a message put is taken at once. */
  lemma LogPass(log: seq<Event>, put: Event, take: Event, ch: Chan, ch': Chan, d: nat)
    requires LogInv(log, ch, d) && put.kind == Put && take.kind == Take && put.chan == take.chan && put.msg == take.msg
    requires ch'.closed == ch.closed && ch'.buf == ch.buf && (ch.sendq == [] ==> ch'.sendq == [])
    requires put.chan == d ==> ch.buf == [] && !HasEof(log, d)
    ensures LogInv(log + [put] + [take], ch', d)
  {
    var mid := if put.chan == d then ch.(buf := [put.msg]) else ch;
    LogAppend(log, put, ch, mid, d);
    LogAppend(log + [put], take, mid, ch', d);
  }

  lemma Passed(s: State, id: nat, i: nat)
    requires CanTry(s, id, i) && !s.sels[id].phase.Blocked?
    requires var ch := s.chans[s.sels[id].chans[i]]; ch.recvq != [] && ch.buf == []
    ensures var c, m := s.sels[id].chans[i], s.sels[id].msgs[i];
            SendOn(s, id, i) == Hand(Move(s, id, i, [], Put, m), s.chans[c].recvq[0], m, Take)
  {
    var ch, m := s.chans[s.sels[id].chans[i]], s.sels[id].msgs[i];
    assert (ch.buf + [m])[1..] == [] && (ch.buf + [m])[0] == m;
  }

  /** A receiver waits, so the buffer is empty and the message goes to the receiver. */
  lemma PassKeepsChan(s: State, id: nat, i: nat, d: nat)
    requires CanTry(s, id, i) && !s.sels[id].phase.Blocked?
    requires !s.chans[s.sels[id].chans[i]].closed && s.chans[s.sels[id].chans[i]].recvq != []
    requires ChanInv(s.log, s.chans[s.sels[id].chans[i]], s.sels[id].chans[i])
    requires d in s.chans && ChanInv(s.log, s.chans[d], d)
    ensures var s' := SendOn(s, id, i); d in s'.chans && ChanInv(s'.log, s'.chans[d], d)
  {
    var c := s.sels[id].chans[i];
    var ch := s.chans[c];
    var m := s.sels[id].msgs[i];
    var w := ch.recvq[0];
    Passed(s, id, i);
    LogPass(s.log, Event(Put, c, id, i, m), Event(Take, c, w.sel, w.idx, m), s.chans[d],
            SendOn(s, id, i).chans[d], d);
  }

  lemma SendKeepsChan(s: State, id: nat, i: nat, d: nat)
    requires CanTry(s, id, i) && !s.sels[id].phase.Blocked?
    requires SendReady(s.chans[s.sels[id].chans[i]]) && !s.chans[s.sels[id].chans[i]].closed
    requires ChanInv(s.log, s.chans[s.sels[id].chans[i]], s.sels[id].chans[i])
    requires d in s.chans && ChanInv(s.log, s.chans[d], d)
    ensures var s' := SendOn(s, id, i); d in s'.chans && ChanInv(s'.log, s'.chans[d], d)
  {
    if s.chans[s.sels[id].chans[i]].recvq == [] {
      StoreKeepsChan(s, id, i, d);
    } else {
      PassKeepsChan(s, id, i, d);
    }
  }

  lemma SendKeepsChannels(s: State, id: nat, i: nat)
    requires CanTry(s, id, i) && !s.sels[id].phase.Blocked? && Channels(s)
    requires SendReady(s.chans[s.sels[id].chans[i]]) && !s.chans[s.sels[id].chans[i]].closed
    ensures Channels(SendOn(s, id, i))
  {
    var s' := SendOn(s, id, i);
    forall d | d in s'.chans ensures ChanInv(s'.log, s'.chans[d], d) {
      SendKeepsChan(s, id, i, d);
    }
  }

  lemma RecvKeepsSelectors(s: State, id: nat, i: nat)
    requires Calling(s, id) && s.sels[id].writes <= i < |s.sels[id].chans|
    requires RecvReady(s.chans[s.sels[id].chans[i]])
    ensures CanTry(s, id, i)
    ensures var s' := RecvOn(s, id, i);
            && Queues(s') && SelectorsBut(s', id)
            && s'.sels[id].target == i && Exchanged(s'.log, s'.sels[id], id, i)
  {
    var c := s.sels[id].chans[i];
    var ch := s.chans[c];
    assert QueueInv(s, c);
    if ch.sendq == [] {
      if ch.buf != [] {
        MoveKeeps(s, id, i, ch.buf[1..], Take, ch.buf[0]);
      } else {
        MoveKeeps(s, id, i, [], Eof, Null);
      }
    } else {
      var w := ch.sendq[0];
      var v := s.sels[w.sel].msgs[w.idx];
      if ch.buf != [] {
        MoveKeeps(s, id, i, ch.buf[1..] + [v], Take, ch.buf[0]);
        var s1 := Move(s, id, i, ch.buf[1..] + [v], Take, ch.buf[0]);
        HandKeeps(s1, c, w, v, Put, id);
        HandKeepsCaller(s1, c, w, v, Put, id);
      } else {
        HandKeeps(s, c, w, v, Put, id);
        HandKeepsCaller(s, c, w, v, Put, id);
        MoveKeeps(Hand(s, w, v, Put), id, i, [], Take, v);
      }
    }
  }

  /** A blocked sender's message goes to the tail of the buffer whose head was taken. */
  lemma RefillKeepsChan(s: State, id: nat, i: nat, d: nat)
    requires CanTry(s, id, i) && !s.sels[id].phase.Blocked?
    requires s.chans[s.sels[id].chans[i]].buf != [] && s.chans[s.sels[id].chans[i]].sendq != []
    requires ChanInv(s.log, s.chans[s.sels[id].chans[i]], s.sels[id].chans[i])
    requires d in s.chans && ChanInv(s.log, s.chans[d], d)
    ensures var s' := RecvOn(s, id, i); d in s'.chans && ChanInv(s'.log, s'.chans[d], d)
  {
    var c := s.sels[id].chans[i];
    var ch := s.chans[c];
    var s' := RecvOn(s, id, i);
    var w := ch.sendq[0];
    var v := s.sels[w.sel].msgs[w.idx];
    var take, put := Event(Take, c, id, i, ch.buf[0]), Event(Put, c, w.sel, w.idx, v);
    var mid := if d == c then ch.(buf := ch.buf[1..]) else s.chans[d];
    LogAppend(s.log, take, s.chans[d], mid, d);
    LogAppend(s.log + [take], put, mid, s'.chans[d], d);
  }

  /** A blocked sender's message goes straight to the receiver. */
  lemma DirectKeepsChan(s: State, id: nat, i: nat, d: nat)
    requires CanTry(s, id, i) && !s.sels[id].phase.Blocked?
    requires s.chans[s.sels[id].chans[i]].buf == [] && s.chans[s.sels[id].chans[i]].sendq != []
    requires ChanInv(s.log, s.chans[s.sels[id].chans[i]], s.sels[id].chans[i])
    requires d in s.chans && ChanInv(s.log, s.chans[d], d)
    ensures var s' := RecvOn(s, id, i); d in s'.chans && ChanInv(s'.log, s'.chans[d], d)
  {
    var c := s.sels[id].chans[i];
    var ch := s.chans[c];
    var s' := RecvOn(s, id, i);
    var w := ch.sendq[0];
    var v := s.sels[w.sel].msgs[w.idx];
    LogPass(s.log, Event(Put, c, w.sel, w.idx, v), Event(Take, c, id, i, v), s.chans[d], s'.chans[d], d);
  }

  lemma RecvKeepsChan(s: State, id: nat, i: nat, d: nat)
    requires CanTry(s, id, i) && !s.sels[id].phase.Blocked?
    requires RecvReady(s.chans[s.sels[id].chans[i]])
    requires ChanInv(s.log, s.chans[s.sels[id].chans[i]], s.sels[id].chans[i])
    requires d in s.chans && ChanInv(s.log, s.chans[d], d)
    ensures var s' := RecvOn(s, id, i); d in s'.chans && ChanInv(s'.log, s'.chans[d], d)
  {
    var ch := s.chans[s.sels[id].chans[i]];
    if ch.sendq == [] {
      var s' := RecvOn(s, id, i);
      LogAppend(s.log, s'.log[|s.log|], s.chans[d], s'.chans[d], d);
    } else if ch.buf != [] {
      RefillKeepsChan(s, id, i, d);
    } else {
      DirectKeepsChan(s, id, i, d);
    }
  }

  lemma RecvKeepsKnown(s: State, id: nat, i: nat)
    requires CanTry(s, id, i) && !s.sels[id].phase.Blocked?
    requires RecvReady(s.chans[s.sels[id].chans[i]])
    requires Known(s)
    ensures Known(RecvOn(s, id, i))
  {
  }

  lemma RecvKeepsChannels(s: State, id: nat, i: nat)
    requires CanTry(s, id, i) && !s.sels[id].phase.Blocked? && Channels(s)
    requires RecvReady(s.chans[s.sels[id].chans[i]])
    ensures Channels(RecvOn(s, id, i))
  {
    var s' := RecvOn(s, id, i);
    forall d | d in s'.chans ensures ChanInv(s'.log, s'.chans[d], d) {
      RecvKeepsChan(s, id, i, d);
    }
    RecvKeepsKnown(s, id, i);
  }

  /** Returning from a completed attempt restores the whole invariant. */
  lemma FinishKeeps(s: State, id: nat)
    requires Queues(s) && SelectorsBut(s, id) && Channels(s)
    requires id in s.sels && s.sels[id].phase.Idle? && s.sels[id].target >= 0
    requires Exchanged(s.log, s.sels[id], id, s.sels[id].target)
    ensures Inv(Finish(s, id))
  {
    var s' := Finish(s, id);
    SwapSel(s, s', id);
    assert SelInv(s', id);
  }

  /* ---------- Select ---------- */

  /** What `chan_select` asks of its caller; the last conjunct is the assertion in
      `chan_try_send`, which only the write channels the scan reaches must satisfy. */
  ghost predicate CanSelect(s: State, id: nat, chans: seq<nat>, writes: nat, msgs: seq<Msg>) {
    && (id in s.sels ==> s.sels[id].phase.Idle?)
    && writes <= |chans| == |msgs| <= 8
    && (forall i :: 0 <= i < |chans| ==> chans[i] in s.chans)
    && NoDup(chans)
    && (forall i :: 0 <= i < writes && (forall j :: 0 <= j < i ==> !SendReady(s.chans[chans[j]]))
                    ==> !s.chans[chans[i]].closed)
  }

  /** The selector at the start of a call. */
  function Begin(s: State, id: nat, chans: seq<nat>, writes: nat, msgs: seq<Msg>): State {
    s.(sels := s.sels[id := Sel(chans, writes, msgs, -1, Idle(-1), |s.log|)])
  }

  lemma BeginIsCalling(s: State, id: nat, chans: seq<nat>, writes: nat, msgs: seq<Msg>)
    requires Inv(s) && CanSelect(s, id, chans, writes, msgs)
    ensures var s' := Begin(s, id, chans, writes, msgs); Calling(s', id) && Channels(s')
  {
    var s' := Begin(s, id, chans, writes, msgs);
    forall c | c in s'.chans ensures QueueInv(s', c) {
      assert QueueInv(s, c);
    }
    forall j | j in s'.sels && j != id ensures SelInv(s', j) {
      assert SelInv(s, j);
    }
  }

  /** The selector enters `lthread_cond_wait`, queued on all its channels. */
  ghost function Block(s: State, id: nat): State
    requires id in s.sels
  {
    s.(chans := Enqueue(s.chans, s.sels[id], id), sels := s.sels[id := s.sels[id].(phase := Blocked)])
  }

  /** `chan_block_select_` from its start to its return or to `lthread_cond_wait`. */
  ghost function Attempt(s: State, id: nat, noblock: bool): State
    requires Calling(s, id)
  {
    var sel := s.sels[id];
    var r := FirstReady(s, sel, 0);
    if r < sel.writes then
      SendKeepsSelectors(s, id, r);
      Finish(SendOn(s, id, r), id)
    else if r < |sel.chans| then
      RecvKeepsSelectors(s, id, r);
      Finish(RecvOn(s, id, r), id)
    else if noblock then
      Finish(s, id)
    else
      Block(s, id)
  }

  lemma BlockKeepsQueue(s: State, id: nat, c: nat)
    requires c in s.chans && QueueInv(s, c)
    requires id in s.sels && s.sels[id].phase.Idle? && |s.sels[id].chans| == |s.sels[id].msgs|
    ensures var s' := Block(s, id); c in s'.chans && QueueInv(s', c)
  {
    var s' := Block(s, id);
    var sel := s.sels[id];
    var i := Pos(sel.chans, c);
    var ch, ch' := s.chans[c], s'.chans[c];
    assert forall w :: WaitOk(s, c, w, true) || WaitOk(s, c, w, false) ==> w.sel != id;
    if i < |sel.chans| {
      NoDupAppend(if i < sel.writes then ch.sendq else ch.recvq, Wait(id, i));
    }
    forall k | 0 <= k < |ch'.sendq| ensures WaitOk(s', c, ch'.sendq[k], true) {
      assert k < |ch.sendq| ==> WaitOk(s, c, ch.sendq[k], true);
    }
    forall k | 0 <= k < |ch'.recvq| ensures WaitOk(s', c, ch'.recvq[k], false) {
      assert k < |ch.recvq| ==> WaitOk(s, c, ch.recvq[k], false);
    }
  }

  lemma PosOfDistinct(chans: seq<nat>, i: nat)
    requires NoDup(chans) && i < |chans|
    ensures Pos(chans, chans[i]) == i
  {
  }

  /** The blocked selector is queued at every one of its positions. */
  lemma BlockAttaches(s: State, id: nat)
    requires id in s.sels && Shape(s, s.sels[id])
    ensures var s' := Block(s, id); Shape(s', s'.sels[id]) && Attached(s', s'.sels[id], id)
  {
    var s' := Block(s, id);
    var sel := s'.sels[id];
    forall i | 0 <= i < |sel.chans|
      ensures Wait(id, i) in (if i < sel.writes then s'.chans[sel.chans[i]].sendq else s'.chans[sel.chans[i]].recvq)
    {
      PosOfDistinct(sel.chans, i);
    }
  }

  lemma BlockKeepsSel(s: State, id: nat, j: nat)
    requires id in s.sels && j in s.sels && j != id && SelInv(s, j)
    ensures SelInv(Block(s, id), j)
  {
  }

  /** Blocking only happens when no position is ready, which is what keeps the queues apart. */
  lemma BlockKeepsChan(s: State, id: nat, c: nat)
    requires Calling(s, id) && c in s.chans && ChanInv(s.log, s.chans[c], c)
    requires forall i :: 0 <= i < |s.sels[id].chans| ==> !Ready(s, s.sels[id], i)
    requires forall i :: 0 <= i < s.sels[id].writes ==> !s.chans[s.sels[id].chans[i]].closed
    ensures var s' := Block(s, id); ChanInv(s'.log, s'.chans[c], c)
  {
    var i := Pos(s.sels[id].chans, c);
    assert i < |s.sels[id].chans| ==> !Ready(s, s.sels[id], i);
  }

  lemma SendKeepsInv(s: State, id: nat, i: nat)
    requires Calling(s, id) && Channels(s) && i < s.sels[id].writes
    requires SendReady(s.chans[s.sels[id].chans[i]]) && !s.chans[s.sels[id].chans[i]].closed
    ensures CanTry(s, id, i)
    ensures Inv(Finish(SendOn(s, id, i), id))
  {
    SendKeepsSelectors(s, id, i);
    SendKeepsChannels(s, id, i);
    FinishKeeps(SendOn(s, id, i), id);
  }

  lemma RecvKeepsInv(s: State, id: nat, i: nat)
    requires Calling(s, id) && Channels(s) && s.sels[id].writes <= i < |s.sels[id].chans|
    requires RecvReady(s.chans[s.sels[id].chans[i]])
    ensures CanTry(s, id, i)
    ensures Inv(Finish(RecvOn(s, id, i), id))
  {
    RecvKeepsSelectors(s, id, i);
    RecvKeepsChannels(s, id, i);
    FinishKeeps(RecvOn(s, id, i), id);
  }

  lemma BlockKeepsInv(s: State, id: nat)
    requires Calling(s, id) && Channels(s)
    requires forall i :: 0 <= i < |s.sels[id].chans| ==> !Ready(s, s.sels[id], i)
    requires forall i :: 0 <= i < s.sels[id].writes ==> !s.chans[s.sels[id].chans[i]].closed
    ensures Inv(Block(s, id))
  {
    var s' := Block(s, id);
    forall c | c in s'.chans ensures QueueInv(s', c) && ChanInv(s'.log, s'.chans[c], c) {
      BlockKeepsQueue(s, id, c);
      BlockKeepsChan(s, id, c);
    }
    BlockAttaches(s, id);
    forall j | j in s'.sels ensures SelInv(s', j) {
      if j != id {
        assert SelInv(s, j);
        BlockKeepsSel(s, id, j);
      }
    }
  }

  /** One select attempt keeps the invariant. */
  lemma AttemptKeepsInv(s: State, id: nat, noblock: bool)
    requires Calling(s, id) && Channels(s)
    requires forall i :: 0 <= i < s.sels[id].writes && i <= FirstReady(s, s.sels[id], 0)
                         ==> !s.chans[s.sels[id].chans[i]].closed
    ensures Inv(Attempt(s, id, noblock))
  {
    var r := FirstReady(s, s.sels[id], 0);
    if r < s.sels[id].writes {
      SendKeepsInv(s, id, r);
    } else if r < |s.sels[id].chans| {
      RecvKeepsInv(s, id, r);
    } else if noblock {
      SwapSel(s, Finish(s, id), id);
    } else {
      BlockKeepsInv(s, id);
    }
  }

  /* ---------- Timeout, resumption, close ---------- */

  /** The timer ends the wait of `id`: it leaves every queue and the select returns -2. */
  function Expire(s: State, id: nat): State
    requires id in s.sels
  {
    s.(chans := Detach(s.chans, id), sels := s.sels[id := s.sels[id].(phase := Idle(-2))])
  }

  lemma ExpireKeepsQueue(s: State, id: nat, c: nat)
    requires c in s.chans && QueueInv(s, c) && id in s.sels
    ensures QueueInv(Expire(s, id), c)
  {
    var s' := Expire(s, id);
    DropKeepsNoDup(s.chans[c].sendq, id);
    DropKeepsNoDup(s.chans[c].recvq, id);
    forall j | 0 <= j < |s'.chans[c].sendq| ensures WaitOk(s', c, s'.chans[c].sendq[j], true) {
      assert s'.chans[c].sendq[j] in s.chans[c].sendq;
    }
    forall j | 0 <= j < |s'.chans[c].recvq| ensures WaitOk(s', c, s'.chans[c].recvq[j], false) {
      assert s'.chans[c].recvq[j] in s.chans[c].recvq;
    }
  }

  lemma ExpireKeepsSel(s: State, id: nat, j: nat)
    requires j in s.sels && SelInv(s, j) && id in s.sels && s.sels[id].phase.Blocked?
    ensures SelInv(Expire(s, id), j)
  {
  }

  lemma ExpireKeepsInv(s: State, id: nat)
    requires Inv(s) && id in s.sels && s.sels[id].phase.Blocked?
    ensures Inv(Expire(s, id))
  {
    var s' := Expire(s, id);
    forall c | c in s'.chans ensures QueueInv(s', c) {
      ExpireKeepsQueue(s, id, c);
    }
    forall j | j in s'.sels ensures SelInv(s', j) {
      ExpireKeepsSel(s, id, j);
    }
    forall c | c in s'.chans ensures ChanInv(s'.log, s'.chans[c], c) {
      assert ChanInv(s.log, s.chans[c], c);
    }
  }

  /** Inside one queue a selector stands at most once, because its channels are distinct. */
  lemma OneWaitPerQueue(s: State, c: nat, q: seq<Wait>, sending: bool, j: nat, k: nat)
    requires SelectorsBut(s, -1) && NoDup(q)
    requires forall i :: 0 <= i < |q| ==> WaitOk(s, c, q[i], sending)
    requires j < |q| && k < |q| && q[j].sel == q[k].sel
    ensures j == k
  {
    assert WaitOk(s, c, q[j], sending) && WaitOk(s, c, q[k], sending);
    assert SelInv(s, q[j].sel);
    var chans := s.sels[q[j].sel].chans;
    assert NoDup(chans) && chans[q[j].idx] == chans[q[k].idx];
    assert q[j] == q[k];
  }

  /** Removing the one wait of a selector from a queue is removing all of its waits. */
  lemma DropAppend(q: seq<Wait>, w: Wait, id: nat)
    ensures Drop(q + [w], id) == Drop(q, id) + if w.sel == id then [] else [w]
  {
    assert (q + [w])[..|q|] == q;
  }

  lemma {:induction false} DropConcat(a: seq<Wait>, b: seq<Wait>, id: nat)
    ensures Drop(a + b, id) == Drop(a, id) + Drop(b, id)
  {
    if b == [] {
      assert a + b == a;
    } else {
      var b1, e := b[..|b| - 1], b[|b| - 1];
      assert b == b1 + [e];
      DropConcat(a, b1, id);
      Regrouped(a, b1, [e]);
      DropAppend(a + b1, e, id);
      DropAppend(b1, e, id);
      Regrouped(Drop(a, id), Drop(b1, id), if e.sel == id then [] else [e]);
    }
  }

  lemma DropLast(a: seq<Wait>, w: Wait)
    requires forall i :: 0 <= i < |a| ==> a[i].sel != w.sel
    ensures Drop(a + [w], w.sel) == a
  {
    DropNothing(a, w.sel);
    DropAppend(a, w, w.sel);
    assert a + [] == a;
  }

  lemma DropIsRemoval(a: seq<Wait>, w: Wait, b: seq<Wait>)
    requires forall i :: 0 <= i < |a| ==> a[i].sel != w.sel
    requires forall i :: 0 <= i < |b| ==> b[i].sel != w.sel
    ensures Drop(a + [w] + b, w.sel) == a + b
  {
    DropConcat(a + [w], b, w.sel);
    DropLast(a, w);
    DropNothing(b, w.sel);
  }

  lemma {:induction false} DropNothing(q: seq<Wait>, id: nat)
    requires forall i :: 0 <= i < |q| ==> q[i].sel != id
    ensures Drop(q, id) == q
  {
    if q == [] {
    } else {
      var front, last := q[..|q| - 1], q[|q| - 1];
      DropNothing(front, id);
      assert last.sel != id;
      assert Drop(q, id) == Drop(front, id) + [last];
      assert q == front + [last];
    }
  }

  /** The loop of `chan_close`: every receiver queued on `c` gets the end marker. */
  ghost function WakeAll(s: State, c: nat): State
    requires c in s.chans && Queues(s)
    decreases |s.chans[c].recvq|
  {
    var q := s.chans[c].recvq;
    if q == [] then s
    else
      assert QueueInv(s, c);
      DropShrinks(q, 0);
      assert forall d :: d in s.chans ==> QueueInv(Hand(s, q[0], Null, Eof), d) by {
        forall d | d in s.chans ensures QueueInv(Hand(s, q[0], Null, Eof), d) {
          HandKeepsQueue(s, c, q[0], Null, Eof, d);
        }
      }
      WakeAll(Hand(s, q[0], Null, Eof), c)
  }

  /** `chan_close` on a channel that is open. */
  ghost function CloseOpen(s: State, c: nat): State
    requires c in s.chans && Queues(s)
  {
    var s1 := s.(chans := s.chans[c := s.chans[c].(closed := true)]);
    assert Queues(s1) by {
      forall d | d in s1.chans ensures QueueInv(s1, d) {
        assert QueueInv(s, d);
      }
    }
    WakeAll(s1, c)
  }
}
