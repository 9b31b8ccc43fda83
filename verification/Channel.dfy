/** The code of src/chan.c.  Channels and selectors are structs that point at each other through
    the wait queues, so the tables `chans` and `sels` hold them by identity and the methods update
    the records; the ghost field `st` is the state of the protocol they implement. */
module Channel {
  import opened ChanSpec
  import opened ChanRuns
  import opened Basics
  import Fifo

  const LTHREAD_FOREVER: nat := 0x01FF_FFFF

  /** `struct lthread_chan`; a channel without a queue is unbuffered. */
  datatype ChanRec = ChanRec(queue: Option<Fifo.Queue>, closed: bool,
                             sendCount: int, sendq: seq<Wait>, recvCount: int, recvq: seq<Wait>)

  /** `struct lthread_sel`, with the place of the lthread that uses it. */
  datatype SelRec = SelRec(chans: seq<nat>, msgs: seq<Msg>, wchanCount: nat, rchanCount: nat,
                           target: int, phase: Phase)

  /** The record of a channel is what the protocol says; the counters count the queues. */
  ghost predicate IsChan(r: ChanRec, ch: Chan) {
    && r.closed == ch.closed && r.sendq == ch.sendq && r.recvq == ch.recvq
    && r.sendCount == |r.sendq| && r.recvCount == |r.recvq|
    && match r.queue
       case None => ch.cap == 0 && ch.buf == []
       case Some(q) => Fifo.Ok(q) && |q.data| == ch.cap > 0 && Fifo.Items(q) == ch.buf
  }

  ghost predicate IsSel(r: SelRec, sel: Sel) {
    && r.chans == sel.chans && r.msgs == sel.msgs && r.wchanCount == sel.writes
    && r.target == sel.target && r.phase == sel.phase
    && r.wchanCount + r.rchanCount == |r.chans| == |r.msgs|
  }

  /** TAILQ_REMOVE: takes out the first occurrence of an element of the queue. */
  function RemoveWait(q: seq<Wait>, w: Wait): (r: seq<Wait>)
    requires w in q
    ensures |r| == |q| - 1
  {
    if q[0] == w then q[1..] else [q[0]] + RemoveWait(q[1..], w)
  }

  lemma SplitAt(q: seq<Wait>, k: nat)
    requires k < |q|
    ensures q == q[..k] + [q[k]] + q[k + 1..]
  {
  }

  lemma OthersAround(q: seq<Wait>, k: nat, a: seq<Wait>, b: seq<Wait>)
    requires k < |q| && a == q[..k] && b == q[k + 1..]
    requires forall i :: 0 <= i < |q| && q[i].sel == q[k].sel ==> i == k
    ensures forall i :: 0 <= i < |a| ==> a[i].sel != q[k].sel
    ensures forall i :: 0 <= i < |b| ==> b[i].sel != q[k].sel
  {
  }

  lemma DropAt(q: seq<Wait>, k: nat)
    requires k < |q|
    requires forall i :: 0 <= i < |q| && q[i].sel == q[k].sel ==> i == k
    ensures Drop(q, q[k].sel) == q[..k] + q[k + 1..]
  {
    var a, b := q[..k], q[k + 1..];
    OthersAround(q, k, a, b);
    DropIsRemoval(a, q[k], b);
    SplitAt(q, k);
  }

  /** Taking one wait of a selector out of a queue takes all of them out. */
  lemma RemoveIsDrop(s: State, c: nat, q: seq<Wait>, sending: bool, w: Wait)
    requires NoDup(q) && w in q
    requires forall i :: 0 <= i < |q| ==> WaitOk(s, c, q[i], sending)
    requires w.sel in s.sels && NoDup(s.sels[w.sel].chans)
    ensures RemoveWait(q, w) == Drop(q, w.sel)
  {
    var k := RemoveSplits(q, w);
    forall i | 0 <= i < |q| && q[i].sel == w.sel ensures i == k {
      assert WaitOk(s, c, q[i], sending) && WaitOk(s, c, q[k], sending);
      assert q[i].idx == w.idx;
    }
    DropAt(q, k);
  }

  lemma {:induction false} RemoveSplits(q: seq<Wait>, w: Wait) returns (k: nat)
    requires w in q
    ensures k < |q| && q[k] == w && RemoveWait(q, w) == q[..k] + q[k + 1..]
  {
    if q[0] == w {
      k := 0;
    } else {
      var j := RemoveSplits(q[1..], w);
      k := j + 1;
      assert q[..k] == [q[0]] + q[1..][..j];
    }
  }

  /** What TAILQ_REMOVE at position `i` of the blocked selector `x` does to that channel. */
  lemma RemoveAtPosition(s: State, x: nat, i: nat)
    requires x in s.sels && s.sels[x].phase.Blocked?
    requires Shape(s, s.sels[x]) && Attached(s, s.sels[x], x) && i < |s.sels[x].chans|
    requires QueueInv(s, s.sels[x].chans[i])
    ensures var ch := s.chans[s.sels[x].chans[i]];
            if i < s.sels[x].writes
            then Wait(x, i) in ch.sendq && Without(ch, x) == ch.(sendq := RemoveWait(ch.sendq, Wait(x, i)))
            else Wait(x, i) in ch.recvq && Without(ch, x) == ch.(recvq := RemoveWait(ch.recvq, Wait(x, i)))
  {
    var sel := s.sels[x];
    var c := sel.chans[i];
    var ch := s.chans[c];
    if i < sel.writes {
      RemoveIsDrop(s, c, ch.sendq, true, Wait(x, i));
      NotOnBothQueues(s, x, i, ch.recvq, false);
    } else {
      RemoveIsDrop(s, c, ch.recvq, false, Wait(x, i));
      NotOnBothQueues(s, x, i, ch.sendq, true);
    }
  }

  /** A selector that sends on a channel is not in the receive queue of that channel. */
  lemma NotOnBothQueues(s: State, x: nat, i: nat, q: seq<Wait>, sending: bool)
    requires x in s.sels && NoDup(s.sels[x].chans) && i < |s.sels[x].chans|
    requires i < s.sels[x].writes <==> !sending
    requires forall k :: 0 <= k < |q| ==> WaitOk(s, s.sels[x].chans[i], q[k], sending)
    ensures Drop(q, x) == q
  {
    forall k | 0 <= k < |q| ensures q[k].sel != x {
      assert WaitOk(s, s.sels[x].chans[i], q[k], sending);
    }
    DropNothing(q, x);
  }

  /** Selector `x` has left the queues of its first `n` channels. */
  function DetachUpTo(chans: map<nat, Chan>, order: seq<nat>, x: nat, n: nat): map<nat, Chan> {
    map c | c in chans :: if Pos(order, c) < n then Without(chans[c], x) else chans[c]
  }

  lemma DetachNext(chans: map<nat, Chan>, order: seq<nat>, x: nat, n: nat)
    requires NoDup(order) && n < |order| && order[n] in chans
    ensures DetachUpTo(chans, order, x, n + 1)
         == DetachUpTo(chans, order, x, n)[order[n] := Without(chans[order[n]], x)]
    ensures DetachUpTo(chans, order, x, n)[order[n]] == chans[order[n]]
  {
    PosOfDistinct(order, n);
  }

  ghost predicate Removable(s: State, x: nat) {
    && x in s.sels && s.sels[x].phase.Blocked?
    && Queues(s) && Shape(s, s.sels[x]) && Attached(s, s.sels[x], x)
  }

  /** `t` is `s` after selector `x` has left its first `i` channels. */
  ghost predicate Partly(s: State, t: State, x: nat, i: nat) {
    x in s.sels && t.sels == s.sels && t.log == s.log && t.chans == DetachUpTo(s.chans, s.sels[x].chans, x, i)
  }

  /** One turn of the loops in `sel_remove_all_chans`. */
  lemma RemoveStep(s: State, x: nat, i: nat, now: map<nat, Chan>)
    requires Removable(s, x) && i < |s.sels[x].chans|
    requires now == DetachUpTo(s.chans, s.sels[x].chans, x, i)
    ensures s.sels[x].chans[i] in now
    ensures var c := s.sels[x].chans[i];
            if i < s.sels[x].writes
            then && Wait(x, i) in now[c].sendq
                 && DetachUpTo(s.chans, s.sels[x].chans, x, i + 1)
                    == now[c := now[c].(sendq := RemoveWait(now[c].sendq, Wait(x, i)))]
            else && Wait(x, i) in now[c].recvq
                 && DetachUpTo(s.chans, s.sels[x].chans, x, i + 1)
                    == now[c := now[c].(recvq := RemoveWait(now[c].recvq, Wait(x, i)))]
  {
    assert QueueInv(s, s.sels[x].chans[i]);
    RemoveAtPosition(s, x, i);
    DetachNext(s.chans, s.sels[x].chans, x, i);
  }

  lemma DetachNone(chans: map<nat, Chan>, order: seq<nat>, x: nat)
    ensures DetachUpTo(chans, order, x, 0) == chans
  {
  }

  lemma NotQueued(s: State, x: nat, c: nat)
    requires c in s.chans && QueueInv(s, c) && x in s.sels && c !in s.sels[x].chans
    ensures Without(s.chans[c], x) == s.chans[c]
  {
    DropNothing(s.chans[c].sendq, x);
    DropNothing(s.chans[c].recvq, x);
  }

  lemma DetachDone(s: State, x: nat)
    requires Queues(s) && x in s.sels
    ensures DetachUpTo(s.chans, s.sels[x].chans, x, |s.sels[x].chans|) == Detach(s.chans, x)
  {
    var order := s.sels[x].chans;
    forall c | c in s.chans && Pos(order, c) >= |order| ensures Without(s.chans[c], x) == s.chans[c] {
      assert QueueInv(s, c);
      NotQueued(s, x, c);
    }
  }

  /** `lthread_cond_signal` on the selector that was completed, if any. */
  function Signal(s: State, wait: Option<Wait>): State
    requires wait.Some? ==> wait.value.sel in s.sels
  {
    if wait.None? then s
    else s.(sels := s.sels[wait.value.sel := s.sels[wait.value.sel].(phase := Woken)])
  }

  /** Once the completed selector is signalled, `s'` is `s` after the send at position `i`. */
  ghost predicate SentAt(s: State, s': State, id: nat, i: nat, wait: Option<Wait>) {
    && CanTry(s, id, i) && !s.sels[id].phase.Blocked? && SendReady(s.chans[s.sels[id].chans[i]])
    && (wait.Some? ==> wait.value.sel in s'.sels && s'.sels[wait.value.sel].phase.Blocked?)
    && id in s'.sels && s'.sels[id].target == i && Signal(s', wait) == SendOn(s, id, i)
  }

  /** Once the completed selector is signalled, `s'` is `s` after the receive at position `i`. */
  ghost predicate ReceivedAt(s: State, s': State, id: nat, i: nat, wait: Option<Wait>) {
    && CanTry(s, id, i) && !s.sels[id].phase.Blocked? && RecvReady(s.chans[s.sels[id].chans[i]])
    && (wait.Some? ==> wait.value.sel in s'.sels && s'.sels[wait.value.sel].phase.Blocked?)
    && id in s'.sels && s'.sels[id].target == i && Signal(s', wait) == RecvOn(s, id, i)
  }

  lemma ReadyStep(s: State, sel: Sel, i: nat)
    requires Shape(s, sel) && i < |sel.chans| && i <= FirstReady(s, sel, 0)
    ensures Ready(s, sel, i) <==> FirstReady(s, sel, 0) == i
  {
  }

  /** A queued selector is blocked, has no target and can be taken out of its queues; what the
      calling selector does to itself and to a buffer does not change that. */
  lemma QueuedIsRemovable(s: State, id: int, c: nat, w: Wait, sending: bool)
    requires SelectorsBut(s, id) && Queues(s) && WaitOk(s, c, w, sending) && w.sel != id
    ensures s.sels[w.sel].target == -1 && Removable(s, w.sel)
  {
    assert SelInv(s, w.sel);
  }

  /** `w` is the first wait on the channel at position `i` of the calling selector `id`. */
  ghost predicate Partner(s: State, id: nat, i: nat, w: Wait, sending: bool) {
    && CanTry(s, id, i) && !s.sels[id].phase.Blocked? && w.sel != id
    && WaitOk(s, s.sels[id].chans[i], w, sending) && Removable(s, w.sel)
    && var ch := s.chans[s.sels[id].chans[i]];
    && (sending ==> ch.sendq != [] && w == ch.sendq[0])
    && (!sending ==> ch.recvq != [] && w == ch.recvq[0])
  }

  lemma FirstIsPartner(s: State, id: nat, i: nat, sending: bool)
    requires Calling(s, id) && i < |s.sels[id].chans|
    requires var ch := s.chans[s.sels[id].chans[i]]; (if sending then ch.sendq else ch.recvq) != []
    ensures var ch := s.chans[s.sels[id].chans[i]];
            var w := if sending then ch.sendq[0] else ch.recvq[0];
            Partner(s, id, i, w, sending) && s.sels[w.sel].target == -1
  {
    var c := s.sels[id].chans[i];
    assert QueueInv(s, c);
    var w := if sending then s.chans[c].sendq[0] else s.chans[c].recvq[0];
    QueuedIsRemovable(s, id, c, w, sending);
  }

  lemma CanTryHere(s: State, id: nat, i: nat)
    requires Calling(s, id) && i < |s.sels[id].chans|
    ensures CanTry(s, id, i)
    ensures var q := s.chans[s.sels[id].chans[i]].recvq;
            forall k :: 0 <= k < |q| ==> q[k].sel in s.sels && q[k].sel != id && s.sels[q[k].sel].target == -1
  {
    var c := s.sels[id].chans[i];
    var q := s.chans[c].recvq;
    assert QueueInv(s, c);
    forall k | 0 <= k < |q| ensures q[k].sel in s.sels && q[k].sel != id && s.sels[q[k].sel].target == -1 {
      assert WaitOk(s, c, q[k], false);
      QueuedIsRemovable(s, id, c, q[k], false);
    }
  }

  lemma MoveKeepsRemovable(s: State, id: nat, i: nat, buf: seq<Msg>, k: Kind, m: Msg, x: nat)
    requires id in s.sels && i < |s.sels[id].chans| == |s.sels[id].msgs| && s.sels[id].chans[i] in s.chans
    requires Removable(s, x) && x != id && !s.sels[id].phase.Blocked?
    ensures Removable(Move(s, id, i, buf, k, m), x)
  {
    var s' := Move(s, id, i, buf, k, m);
    forall c | c in s'.chans ensures QueueInv(s', c) {
      assert QueueInv(s, c);
    }
  }

  /** `s` with message `v` in the slot of `w`. */
  function WithMsg(s: State, w: Wait, v: Msg): State
    requires w.sel in s.sels && w.idx < |s.sels[w.sel].msgs|
  {
    s.(sels := s.sels[w.sel := s.sels[w.sel].(msgs := s.sels[w.sel].msgs[w.idx := v])])
  }

  lemma WithMsgIsRemovable(s: State, w: Wait, v: Msg)
    requires Removable(s, w.sel) && w.idx < |s.sels[w.sel].msgs|
    ensures Removable(WithMsg(s, w, v), w.sel)
  {
    var s' := WithMsg(s, w, v);
    forall c | c in s'.chans ensures QueueInv(s', c) {
      assert QueueInv(s, c);
    }
  }

  /** `s` after `w` was completed but not signalled. */
  function Completed(s: State, w: Wait, k: Kind): State
    requires w.sel in s.sels && w.idx < |s.sels[w.sel].chans| == |s.sels[w.sel].msgs|
  {
    var sel := s.sels[w.sel];
    State(Detach(s.chans, w.sel),
          s.sels[w.sel := sel.(target := w.idx)],
          s.log + [Event(k, sel.chans[w.idx], w.sel, w.idx, sel.msgs[w.idx])])
  }

  /** Message, completion and signal together are one hand-over. */
  lemma CompletedIsHand(s: State, w: Wait, v: Msg, k: Kind)
    requires w.sel in s.sels && w.idx < |s.sels[w.sel].chans| == |s.sels[w.sel].msgs|
    ensures Signal(Completed(WithMsg(s, w, v), w, k), Some(w)) == Hand(s, w, v, k)
  {
    assert Signal(Completed(WithMsg(s, w, v), w, k), Some(w)).sels == Hand(s, w, v, k).sels;
  }

  lemma SameMsg(s: State, w: Wait)
    requires w.sel in s.sels && w.idx < |s.sels[w.sel].msgs|
    ensures WithMsg(s, w, s.sels[w.sel].msgs[w.idx]) == s
  {
    assert s.sels[w.sel].msgs[w.idx := s.sels[w.sel].msgs[w.idx]] == s.sels[w.sel].msgs;
    assert WithMsg(s, w, s.sels[w.sel].msgs[w.idx]).sels == s.sels;
  }

  lemma MoveTwice(s: State, id: nat, i: nat, a: seq<Msg>, b: seq<Msg>, k: Kind, m: Msg)
    requires id in s.sels && i < |s.sels[id].chans| == |s.sels[id].msgs| && s.sels[id].chans[i] in s.chans
    ensures var c := s.sels[id].chans[i];
            var s1 := Move(s, id, i, a, k, m);
            s1.(chans := s1.chans[c := s1.chans[c].(buf := b)]) == Move(s, id, i, b, k, m)
  {
    var c := s.sels[id].chans[i];
    var s1 := Move(s, id, i, a, k, m);
    assert s1.chans[c := s1.chans[c].(buf := b)] == Move(s, id, i, b, k, m).chans;
  }

  lemma SignalAfterMove(s: State, id: nat, i: nat, buf: seq<Msg>, k: Kind, m: Msg, w: Wait)
    requires id in s.sels && i < |s.sels[id].chans| == |s.sels[id].msgs| && s.sels[id].chans[i] in s.chans
    requires w.sel in s.sels && w.sel != id
    ensures Signal(Move(s, id, i, buf, k, m), Some(w)) == Move(Signal(s, Some(w)), id, i, buf, k, m)
  {
    var s1 := Signal(s, Some(w));
    assert Signal(Move(s, id, i, buf, k, m), Some(w)).sels == Move(s1, id, i, buf, k, m).sels;
  }

  /** Releasing the sender and then settling the receiver is the direct hand-over. */
  lemma HandOverMeans(s: State, s1: State, id: nat, i: nat, w: Wait, v: Msg)
    requires Partner(s, id, i, w, true) && s.chans[s.sels[id].chans[i]].buf == []
    requires v == s.sels[w.sel].msgs[w.idx]
    requires w.sel in s1.sels && s1.sels[w.sel].phase.Blocked? && id in s1.sels && s1.sels[id] == s.sels[id]
    requires Signal(s1, Some(w)) == Hand(s, w, v, Put)
    ensures s.sels[id].chans[i] in s1.chans && s1.chans[s.sels[id].chans[i]].buf == []
    ensures ReceivedAt(s, Move(s1, id, i, [], Take, v), id, i, Some(w))
  {
    assert s1.chans == Detach(s.chans, w.sel);
    SignalAfterMove(s1, id, i, [], Take, v, w);
  }

  /** Selector `id` stands in the queues of its first `n` channels. */
  function EnqueueUpTo(chans: map<nat, Chan>, sel: Sel, id: nat, n: nat): map<nat, Chan> {
    map c | c in chans :: if Pos(sel.chans, c) < n then AddWait(chans[c], sel, id, Pos(sel.chans, c)) else chans[c]
  }

  lemma EnqueueNone(chans: map<nat, Chan>, sel: Sel, id: nat)
    ensures EnqueueUpTo(chans, sel, id, 0) == chans
  {
  }

  lemma EnqueueNext(chans: map<nat, Chan>, sel: Sel, id: nat, n: nat, now: map<nat, Chan>)
    requires NoDup(sel.chans) && n < |sel.chans| && sel.chans[n] in chans
    requires now == EnqueueUpTo(chans, sel, id, n)
    ensures sel.chans[n] in now
    ensures EnqueueUpTo(chans, sel, id, n + 1) == now[sel.chans[n] := AddWait(now[sel.chans[n]], sel, id, n)]
  {
    PosOfDistinct(sel.chans, n);
  }

  lemma EnqueueDone(chans: map<nat, Chan>, sel: Sel, id: nat)
    ensures EnqueueUpTo(chans, sel, id, |sel.chans|) == Enqueue(chans, sel, id)
  {
  }

  class Runtime {
    var chans: map<nat, ChanRec>
    var sels: map<nat, SelRec>
    ghost var st: State

    /** The tables are the protocol state `st`. */
    ghost predicate Sound()
      reads this
    {
      && chans.Keys == st.chans.Keys && sels.Keys == st.sels.Keys
      && (forall c :: c in chans ==> IsChan(chans[c], st.chans[c]))
      && (forall id :: id in sels ==> IsSel(sels[id], st.sels[id]))
    }

    ghost predicate Valid()
      reads this
    {
      Sound() && Inv(st)
    }

    constructor ()
      ensures Valid() && st == State(map[], map[], [])
    {
      chans := map[];
      sels := map[];
      st := State(map[], map[], []);
    }

    /** `chan_init`.  A capacity that `queue_init` refuses gives an unbuffered channel. */
    method ChanInit(c: nat, capacity: nat)
      requires Valid() && c !in chans
      modifies this
      ensures Valid()
      ensures Steps(old(st), Open(c, if capacity * Fifo.POINTER_SIZE <= Fifo.INT_MAX then capacity else 0), st)
    {
      ghost var cap := if capacity * Fifo.POINTER_SIZE <= Fifo.INT_MAX then capacity else 0;
      NextKeepsInv(st, Open(c, cap));
      var queue := None;
      if capacity > 0 {
        queue := Fifo.Init(capacity);
      }
      AddChan(c, ChanRec(queue, false, 0, [], 0, []), Chan(cap, [], false, [], []));
    }

    method AddChan(c: nat, r: ChanRec, ghost ch: Chan)
      requires Sound() && IsChan(r, ch)
      modifies this
      ensures Sound() && st == old(st).(chans := old(st).chans[c := ch])
    {
      chans := chans[c := r];
      st := st.(chans := st.chans[c := ch]);
    }

    /** TAILQ_REMOVE from a send queue, with its counter. */
    method RemoveSend(c: nat, w: Wait)
      requires Sound() && c in chans && w in chans[c].sendq
      modifies this
      ensures Sound() && sels == old(sels)
      ensures var ch := old(st).chans[c];
              st == old(st).(chans := old(st).chans[c := ch.(sendq := RemoveWait(ch.sendq, w))])
    {
      var r := chans[c];
      chans := chans[c := r.(sendq := RemoveWait(r.sendq, w), sendCount := r.sendCount - 1)];
      st := st.(chans := st.chans[c := st.chans[c].(sendq := RemoveWait(r.sendq, w))]);
    }

    /** TAILQ_REMOVE from a receive queue, with its counter. */
    method RemoveRecv(c: nat, w: Wait)
      requires Sound() && c in chans && w in chans[c].recvq
      modifies this
      ensures Sound() && sels == old(sels)
      ensures var ch := old(st).chans[c];
              st == old(st).(chans := old(st).chans[c := ch.(recvq := RemoveWait(ch.recvq, w))])
    {
      var r := chans[c];
      chans := chans[c := r.(recvq := RemoveWait(r.recvq, w), recvCount := r.recvCount - 1)];
      st := st.(chans := st.chans[c := st.chans[c].(recvq := RemoveWait(r.recvq, w))]);
    }

    /** The send loop of `sel_remove_all_chans`. */
    method RemoveSends(x: nat, ghost s: State)
      requires Sound() && Removable(st, x) && s == st
      modifies this
      ensures Sound() && sels == old(sels) && st.sels == s.sels && st.log == s.log
      ensures st.chans == DetachUpTo(s.chans, s.sels[x].chans, x, s.sels[x].writes)
    {
      var sel := sels[x];
      assert IsSel(sel, s.sels[x]);
      DetachNone(s.chans, sel.chans, x);
      var i := 0;
      while i < sel.wchanCount
        invariant i <= sel.wchanCount
        invariant Sound() && sels == old(sels) && st.sels == s.sels && st.log == s.log
        invariant st.chans == DetachUpTo(s.chans, sel.chans, x, i)
      {
        RemoveStep(s, x, i, st.chans);
        RemoveSend(sel.chans[i], Wait(x, i));
        i := i + 1;
      }
    }

    method RemoveRecvAt(x: nat, i: nat, ghost s: State)
      requires Sound() && Removable(s, x) && s.sels[x].writes <= i < |s.sels[x].chans| && Partly(s, st, x, i)
      modifies this
      ensures Sound() && sels == old(sels) && Partly(s, st, x, i + 1)
    {
      RemoveStep(s, x, i, st.chans);
      assert IsSel(sels[x], s.sels[x]);
      RemoveRecv(sels[x].chans[i], Wait(x, i));
    }

    /** Its receive loop. */
    method RemoveRecvs(x: nat, i0: nat, n: nat, ghost s: State)
      requires Sound() && Removable(s, x) && i0 == s.sels[x].writes <= n == |s.sels[x].chans| && Partly(s, st, x, i0)
      modifies this
      ensures Sound() && sels == old(sels) && Partly(s, st, x, n)
    {
      var i := i0;
      while i < n
        invariant i0 <= i <= n && Sound() && sels == old(sels) && Partly(s, st, x, i)
      {
        RemoveRecvAt(x, i, s);
        i := i + 1;
      }
    }

    /** `sel_remove_all_chans` */
    method SelRemoveAllChans(x: nat)
      requires Sound() && Removable(st, x)
      modifies this
      ensures Sound() && sels == old(sels)
      ensures st == old(st).(chans := Detach(old(st).chans, x))
    {
      ghost var s := st;
      var sel := sels[x];
      assert IsSel(sel, s.sels[x]);
      RemoveSends(x, s);
      RemoveRecvs(x, sel.wchanCount, sel.wchanCount + sel.rchanCount, s);
      DetachDone(s, x);
    }

    /** Queued selectors have no target, so the search stops at the first wait. */
    method FindQueued(q: seq<Wait>) returns (hit: Option<Wait>)
      requires Sound() && forall k :: 0 <= k < |q| ==> q[k].sel in st.sels && st.sels[q[k].sel].target == -1
      ensures hit == if q == [] then None else Some(q[0])
    {
      assert forall k :: 0 <= k < |q| ==> IsSel(sels[q[k].sel], st.sels[q[k].sel]);
      hit := FindWaiting(q);
    }

    /** Writes the record of a selector. */
    method SetSel(id: nat, r: SelRec, ghost sel: Sel)
      requires Sound() && IsSel(r, sel)
      modifies this
      ensures Sound() && chans == old(chans) && sels == old(sels)[id := r]
      ensures st == old(st).(sels := old(st).sels[id := sel])
    {
      sels := sels[id := r];
      st := st.(sels := st.sels[id := sel]);
    }

    /** Writes the queue of a buffered channel. */
    method SetQueue(c: nat, q: Fifo.Queue)
      requires Sound() && c in chans && chans[c].queue.Some?
      requires Fifo.Ok(q) && |q.data| == |chans[c].queue.value.data|
      modifies this
      ensures Sound() && sels == old(sels)
      ensures st == old(st).(chans := old(st).chans[c := old(st).chans[c].(buf := Fifo.Items(q))])
    {
      chans := chans[c := chans[c].(queue := Some(q))];
      st := st.(chans := st.chans[c := st.chans[c].(buf := Fifo.Items(q))]);
    }

    /** The part of `chan_try_send` and `chan_try_recv` that takes the other selector out of all
        queues and gives it its target; it is not signalled yet. */
    method Complete(w: Wait, ghost k: Kind)
      requires Sound() && Removable(st, w.sel) && w.idx < |st.sels[w.sel].chans|
      modifies this
      ensures Sound() && st == Completed(old(st), w, k)
    {
      SelRemoveAllChans(w.sel);
      SetSel(w.sel, sels[w.sel].(target := w.idx), st.sels[w.sel].(target := w.idx));
      ghost var sel := st.sels[w.sel];
      st := st.(log := st.log + [Event(k, sel.chans[w.idx], w.sel, w.idx, sel.msgs[w.idx])]);
    }

    /** `TAILQ_FOREACH` over waits, up to the first whose selector has no target yet. */
    method FindWaiting(q: seq<Wait>) returns (r: Option<Wait>)
      requires forall k :: 0 <= k < |q| ==> q[k].sel in sels
      ensures r.None? ==> forall k :: 0 <= k < |q| ==> sels[q[k].sel].target != -1
      ensures r.Some? ==> exists k :: 0 <= k < |q| && r.value == q[k] && sels[q[k].sel].target == -1
                                      && forall j :: 0 <= j < k ==> sels[q[j].sel].target != -1
    {
      var k := 0;
      while k < |q|
        invariant 0 <= k <= |q|
        invariant forall j :: 0 <= j < k ==> sels[q[j].sel].target != -1
      {
        if sels[q[k].sel].target == -1 {
          return Some(q[k]);
        }
        k := k + 1;
      }
      return None;
    }

    /** Position `idx` of the calling selector has exchanged `m`: message slot, target and log. */
    method Settle(id: nat, idx: nat, m: Msg, ghost k: Kind)
      requires Sound()
      requires id in st.sels && idx < |st.sels[id].chans| == |st.sels[id].msgs| && st.sels[id].chans[idx] in st.chans
      modifies this
      ensures Sound() && chans == old(chans)
      ensures st == Move(old(st), id, idx, old(st).chans[old(st).sels[id].chans[idx]].buf, k, m)
    {
      ghost var s := st;
      var r := sels[id];
      SetSel(id, r.(msgs := r.msgs[idx := m], target := idx), st.sels[id].(msgs := r.msgs[idx := m], target := idx));
      st := st.(log := st.log + [Event(k, r.chans[idx], id, idx, m)]);
      assert s.chans[r.chans[idx] := s.chans[r.chans[idx]]] == s.chans;
    }

    /** Hands message `v` to the receiver `w`. */
    method GiveTo(w: Wait, v: Msg, ghost k: Kind)
      requires Sound() && Removable(st, w.sel) && w.idx < |st.sels[w.sel].chans|
      modifies this
      ensures Sound() && w.sel in st.sels && st.sels[w.sel].phase.Blocked?
      ensures Signal(st, Some(w)) == Hand(old(st), w, v, k)
      ensures forall j :: j in old(st).sels && j != w.sel ==> j in st.sels && st.sels[j] == old(st).sels[j]
    {
      WithMsgIsRemovable(st, w, v);
      CompletedIsHand(st, w, v, k);
      var r := sels[w.sel];
      SetSel(w.sel, r.(msgs := r.msgs[w.idx := v]), st.sels[w.sel].(msgs := r.msgs[w.idx := v]));
      Complete(w, k);
    }

    /** `chan_try_send`, buffer part: `queue_add` and the target. */
    method Deposit(id: nat, idx: nat)
      requires Sound() && CanTry(st, id, idx)
      requires |st.chans[st.sels[id].chans[idx]].buf| < st.chans[st.sels[id].chans[idx]].cap
      modifies this
      ensures Sound()
      ensures var m := old(st).sels[id].msgs[idx];
              st == Move(old(st), id, idx, old(st).chans[old(st).sels[id].chans[idx]].buf + [m], Put, m)
    {
      ghost var s := st;
      var c := sels[id].chans[idx];
      var m := sels[id].msgs[idx];
      assert IsSel(sels[id], s.sels[id]) && IsChan(chans[c], s.chans[c]);
      var q := Fifo.Add(chans[c].queue.value, m).1;
      Settle(id, idx, m, Put);
      SetQueue(c, q);
      MoveTwice(s, id, idx, s.chans[c].buf, s.chans[c].buf + [m], Put, m);
    }

    /** `chan_try_send`, with a receiver waiting: the message that reaches it. */
    method Forward(id: nat, idx: nat, w: Wait, buffered: bool, ghost s: State)
      requires Sound() && Partner(s, id, idx, w, false)
      requires var ch := s.chans[s.sels[id].chans[idx]];
               && (buffered <==> |ch.buf| < ch.cap)
               && st == if buffered then Move(s, id, idx, ch.buf + [s.sels[id].msgs[idx]], Put, s.sels[id].msgs[idx])
                        else s
      modifies this
      ensures Sound() && SentAt(s, st, id, idx, Some(w))
    {
      assert IsSel(sels[id], st.sels[id]);
      var c := sels[id].chans[idx];
      var m := sels[id].msgs[idx];
      ghost var buf := s.chans[c].buf;
      assert IsChan(chans[c], st.chans[c]);
      var v := m;
      if buffered {
        var r := Fifo.Remove(chans[c].queue.value);
        v := r.0;
        SetQueue(c, r.1);
        MoveTwice(s, id, idx, buf + [m], (buf + [m])[1..], Put, m);
        MoveKeepsRemovable(s, id, idx, (buf + [m])[1..], Put, m, w.sel);
      } else {
        Settle(id, idx, m, Put);
        MoveKeepsRemovable(s, id, idx, buf, Put, m, w.sel);
      }
      GiveTo(w, v, Take);
    }

    /** `chan_try_send` */
    method ChanTrySend(id: nat, idx: nat) returns (found: bool, wait: Option<Wait>)
      requires Sound() && Calling(st, id) && idx < st.sels[id].writes
      requires !st.chans[st.sels[id].chans[idx]].closed
      modifies this
      ensures Sound()
      ensures found <==> SendReady(old(st).chans[old(st).sels[id].chans[idx]])
      ensures !found ==> st == old(st) && wait.None?
      ensures found ==> SentAt(old(st), st, id, idx, wait)
    {
      ghost var s := st;
      ghost var ch := s.chans[s.sels[id].chans[idx]];
      if ch.recvq != [] {
        FirstIsPartner(s, id, idx, false);
      }
      CanTryHere(s, id, idx);
      found, wait := TrySend(id, idx);
    }

    /** The body of `chan_try_send`. */
    method TrySend(id: nat, idx: nat) returns (found: bool, wait: Option<Wait>)
      requires Sound() && CanTry(st, id, idx) && st.sels[id].phase.Idle? && st.sels[id].target == -1
      requires var q := st.chans[st.sels[id].chans[idx]].recvq;
               && (q != [] ==> Partner(st, id, idx, q[0], false))
               && forall k :: 0 <= k < |q| ==> q[k].sel in st.sels && q[k].sel != id && st.sels[q[k].sel].target == -1
      modifies this
      ensures Sound()
      ensures found <==> SendReady(old(st).chans[old(st).sels[id].chans[idx]])
      ensures !found ==> st == old(st) && wait.None?
      ensures found ==> SentAt(old(st), st, id, idx, wait)
    {
      ghost var s := st;
      var c := sels[id].chans[idx];
      assert IsSel(sels[id], s.sels[id]) && IsChan(chans[c], s.chans[c]);
      wait := None;
      var buffered := chans[c].queue.Some? && chans[c].queue.value.size < |chans[c].queue.value.data|;
      if buffered {
        Deposit(id, idx);
      }
      assert IsChan(chans[c], st.chans[c]);
      var hit := FindQueued(chans[c].recvq);
      if hit.Some? {
        Forward(id, idx, hit.value, buffered, s);
        wait := hit;
      }
      assert IsSel(sels[id], st.sels[id]);
      found := sels[id].target != -1;
    }

    /** Releases the sender `w`, whose message `v` was taken. */
    method Release(w: Wait, ghost v: Msg)
      requires Sound() && Removable(st, w.sel) && w.idx < |st.sels[w.sel].chans| && v == st.sels[w.sel].msgs[w.idx]
      modifies this
      ensures Sound() && w.sel in st.sels && st.sels[w.sel].phase.Blocked?
      ensures Signal(st, Some(w)) == Hand(old(st), w, v, Put)
      ensures forall j :: j in old(st).sels && j != w.sel ==> j in st.sels && st.sels[j] == old(st).sels[j]
    {
      SameMsg(st, w);
      CompletedIsHand(st, w, v, Put);
      Complete(w, Put);
    }

    /** `chan_try_recv`, buffer part: `queue_remove` into the slot, and the target. */
    method Withdraw(id: nat, idx: nat)
      requires Sound() && CanTry(st, id, idx)
      requires st.chans[st.sels[id].chans[idx]].buf != []
      modifies this
      ensures Sound()
      ensures var buf := old(st).chans[old(st).sels[id].chans[idx]].buf;
              st == Move(old(st), id, idx, buf[1..], Take, buf[0])
    {
      ghost var s := st;
      var c := sels[id].chans[idx];
      assert IsSel(sels[id], s.sels[id]) && IsChan(chans[c], s.chans[c]);
      var r := Fifo.Remove(chans[c].queue.value);
      Settle(id, idx, r.0, Take);
      SetQueue(c, r.1);
      MoveTwice(s, id, idx, s.chans[c].buf, s.chans[c].buf[1..], Take, r.0);
    }

    /** `chan_try_recv`, with a sender waiting: its message refills the buffer. */
    method Refill(id: nat, idx: nat, w: Wait, ghost s: State)
      requires Sound() && Partner(s, id, idx, w, true)
      requires var ch := s.chans[s.sels[id].chans[idx]];
               && ch.buf != [] && |ch.buf| <= ch.cap
               && st == Move(s, id, idx, ch.buf[1..], Take, ch.buf[0])
      modifies this
      ensures Sound() && ReceivedAt(s, st, id, idx, Some(w))
    {
      assert IsSel(sels[id], st.sels[id]) && IsSel(sels[w.sel], st.sels[w.sel]);
      var c := sels[id].chans[idx];
      assert IsChan(chans[c], st.chans[c]);
      var v := sels[w.sel].msgs[w.idx];
      ghost var buf := s.chans[c].buf;
      SetQueue(c, Fifo.Add(chans[c].queue.value, v).1);
      MoveTwice(s, id, idx, buf[1..], buf[1..] + [v], Take, buf[0]);
      MoveKeepsRemovable(s, id, idx, buf[1..] + [v], Take, buf[0], w.sel);
      Release(w, v);
    }

    /** `chan_try_recv`, with a sender waiting and nothing buffered: direct hand-over. */
    method HandOver(id: nat, idx: nat, w: Wait)
      requires Sound() && Partner(st, id, idx, w, true)
      requires st.chans[st.sels[id].chans[idx]].buf == []
      modifies this
      ensures Sound() && ReceivedAt(old(st), st, id, idx, Some(w))
    {
      ghost var s := st;
      assert IsSel(sels[id], s.sels[id]) && IsSel(sels[w.sel], s.sels[w.sel]);
      var v := sels[w.sel].msgs[w.idx];
      Release(w, v);
      HandOverMeans(s, st, id, idx, w, v);
      Settle(id, idx, v, Take);
    }

    /** `chan_try_recv` */
    method ChanTryRecv(id: nat, idx: nat) returns (found: bool, wait: Option<Wait>)
      requires Sound() && Calling(st, id) && Channels(st) && st.sels[id].writes <= idx < |st.sels[id].chans|
      modifies this
      ensures Sound()
      ensures found <==> RecvReady(old(st).chans[old(st).sels[id].chans[idx]])
      ensures !found ==> st == old(st) && wait.None?
      ensures found ==> ReceivedAt(old(st), st, id, idx, wait)
    {
      ghost var s := st;
      ghost var c := s.sels[id].chans[idx];
      if s.chans[c].sendq != [] {
        FirstIsPartner(s, id, idx, true);
      }
      CanTryHere(s, id, idx);
      assert ChanInv(s.log, s.chans[c], c);
      found, wait := TryRecv(id, idx);
    }

    /** The body of `chan_try_recv`. */
    method TryRecv(id: nat, idx: nat) returns (found: bool, wait: Option<Wait>)
      requires Sound() && CanTry(st, id, idx) && st.sels[id].phase.Idle? && st.sels[id].target == -1
      requires BufInv(st.chans[st.sels[id].chans[idx]])
      requires var q := st.chans[st.sels[id].chans[idx]].sendq;
               q != [] ==> Partner(st, id, idx, q[0], true) && st.sels[q[0].sel].target == -1
      modifies this
      ensures Sound()
      ensures found <==> RecvReady(old(st).chans[old(st).sels[id].chans[idx]])
      ensures !found ==> st == old(st) && wait.None?
      ensures found ==> ReceivedAt(old(st), st, id, idx, wait)
    {
      ghost var s := st;
      var c := sels[id].chans[idx];
      assert IsSel(sels[id], s.sels[id]) && IsChan(chans[c], s.chans[c]);
      wait := None;
      var buffered := chans[c].queue.Some? && chans[c].queue.value.size > 0;
      if buffered {
        Withdraw(id, idx);
      }
      assert IsChan(chans[c], st.chans[c]);
      if chans[c].sendq != [] {
        var w := chans[c].sendq[0];
        assert IsSel(sels[w.sel], s.sels[w.sel]);
        if sels[w.sel].target == -1 {
          if buffered {
            Refill(id, idx, w, s);
          } else {
            HandOver(id, idx, w);
          }
          wait := Some(w);
        }
      }
      assert IsSel(sels[id], st.sels[id]);
      if sels[id].target != -1 {
        return true, wait;
      }
      if chans[c].closed {
        Settle(id, idx, Null, Eof);
        return true, wait;
      }
      return false, wait;
    }

    /** The first loop of `chan_block_select_`; `r` is the first ready position. */
    method ScanSends(id: nat, ghost r: nat) returns (found: bool, wait: Option<Wait>)
      requires Sound() && Calling(st, id) && r == FirstReady(st, st.sels[id], 0)
      requires forall i :: 0 <= i < st.sels[id].writes && i <= r ==> !st.chans[st.sels[id].chans[i]].closed
      modifies this
      ensures Sound()
      ensures found <==> r < old(st).sels[id].writes
      ensures found ==> SentAt(old(st), st, id, r, wait)
      ensures !found ==> st == old(st) && wait.None?
    {
      ghost var s := st;
      assert IsSel(sels[id], s.sels[id]);
      var n := sels[id].wchanCount;
      var i := 0;
      wait := None;
      while i < n
        invariant 0 <= i <= n == s.sels[id].writes && i <= r
        invariant Sound() && st == s && wait.None?
      {
        ReadyStep(s, s.sels[id], i);
        found, wait := ChanTrySend(id, i);
        if found {
          return;
        }
        i := i + 1;
      }
      found := false;
    }

    /** The second loop of `chan_block_select_`. */
    method ScanRecvs(id: nat, ghost r: nat) returns (found: bool, wait: Option<Wait>)
      requires Sound() && Calling(st, id) && Channels(st)
      requires r == FirstReady(st, st.sels[id], 0) && r >= st.sels[id].writes
      modifies this
      ensures Sound()
      ensures found <==> r < |old(st).sels[id].chans|
      ensures found ==> ReceivedAt(old(st), st, id, r, wait)
      ensures !found ==> st == old(st) && wait.None?
    {
      ghost var s := st;
      assert IsSel(sels[id], s.sels[id]);
      var n := sels[id].rchanCount + sels[id].wchanCount;
      var i := sels[id].wchanCount;
      wait := None;
      while i < n
        invariant s.sels[id].writes <= i <= n == |s.sels[id].chans| && i <= r
        invariant Sound() && st == s && wait.None?
      {
        ReadyStep(s, s.sels[id], i);
        found, wait := ChanTryRecv(id, i);
        if found {
          return;
        }
        i := i + 1;
      }
      found := false;
    }

    /** `lthread_cond_signal(&wait->sel->cond)` */
    method CondSignal(wait: Option<Wait>)
      requires Sound() && (wait.Some? ==> wait.value.sel in st.sels)
      modifies this
      ensures Sound() && st == Signal(old(st), wait)
    {
      if wait.Some? {
        SetSel(wait.value.sel, sels[wait.value.sel].(phase := Woken), st.sels[wait.value.sel].(phase := Woken));
      }
    }

    /** The common exit of `chan_block_select_`: the target is returned and reset. */
    method TakeTarget(id: nat) returns (n: int)
      requires Sound() && id in st.sels
      modifies this
      ensures Sound() && st == Finish(old(st), id) && n == old(st).sels[id].target
    {
      assert IsSel(sels[id], st.sels[id]);
      n := sels[id].target;
      SetSel(id, sels[id].(target := -1, phase := Idle(n)), st.sels[id].(target := -1, phase := Idle(n)));
    }

    /** TAILQ_INSERT_TAIL at position `i` of selector `id`, with the counter. */
    method InsertTail(id: nat, i: nat)
      requires Sound() && id in st.sels && i < |st.sels[id].chans| && st.sels[id].chans[i] in st.chans
      modifies this
      ensures Sound() && sels == old(sels)
      ensures var c := old(st).sels[id].chans[i];
              st == old(st).(chans := old(st).chans[c := AddWait(old(st).chans[c], old(st).sels[id], id, i)])
    {
      assert IsSel(sels[id], st.sels[id]);
      var c := sels[id].chans[i];
      var r := chans[c];
      if i < sels[id].wchanCount {
        chans := chans[c := r.(sendCount := r.sendCount + 1, sendq := r.sendq + [Wait(id, i)])];
      } else {
        chans := chans[c := r.(recvCount := r.recvCount + 1, recvq := r.recvq + [Wait(id, i)])];
      }
      st := st.(chans := st.chans[c := AddWait(st.chans[c], st.sels[id], id, i)]);
    }

    /** The insertion loops of `chan_block_select_`. */
    method EnqueueAll(id: nat)
      requires Sound() && id in st.sels && Shape(st, st.sels[id])
      modifies this
      ensures Sound() && sels == old(sels)
      ensures st == old(st).(chans := Enqueue(old(st).chans, old(st).sels[id], id))
    {
      ghost var s := st;
      var n := sels[id].wchanCount + sels[id].rchanCount;
      assert IsSel(sels[id], s.sels[id]) && n == |s.sels[id].chans|;
      EnqueueNone(s.chans, s.sels[id], id);
      var i := 0;
      while i < n
        invariant i <= n
        invariant Sound() && sels == old(sels)
        invariant st.chans == EnqueueUpTo(s.chans, s.sels[id], id, i) && st.sels == s.sels && st.log == s.log
      {
        EnqueueNext(s.chans, s.sels[id], id, i, st.chans);
        InsertTail(id, i);
        i := i + 1;
      }
      EnqueueDone(s.chans, s.sels[id], id);
    }

    /** The insertion loops and the entry of `lthread_cond_wait`. */
    method Park(id: nat)
      requires Sound() && id in st.sels && Shape(st, st.sels[id])
      modifies this
      ensures Sound() && st == Block(old(st), id)
    {
      EnqueueAll(id);
      assert IsSel(sels[id], st.sels[id]);
      SetSel(id, sels[id].(phase := Blocked), st.sels[id].(phase := Blocked));
    }

    /** `chan_block_select_` up to its return or to `lthread_cond_wait`, in which case there is no
        return value yet. */
    method ChanBlockSelect(id: nat, timeout: nat, ghost r: nat) returns (n: Option<int>)
      requires Sound() && Calling(st, id) && Channels(st) && r == FirstReady(st, st.sels[id], 0)
      requires forall i :: 0 <= i < st.sels[id].writes && i <= r ==> !st.chans[st.sels[id].chans[i]].closed
      modifies this
      ensures Sound() && st == Attempt(old(st), id, timeout == 0)
      ensures id in st.sels && st.sels[id].phase == if n.None? then Blocked else Idle(n.value)
    {
      ghost var s := st;
      var found, wait := ScanSends(id, r);
      if !found {
        found, wait := ScanRecvs(id, r);
      }
      if found {
        CondSignal(wait);
        var target := TakeTarget(id);
        return Some(target);
      }
      if timeout == 0 {
        var target := TakeTarget(id);
        return Some(target);
      }
      Park(id);
      return None;
    }

    /** `chan_select` */
    method ChanSelect(id: nat, cs: seq<nat>, msgs: seq<Msg>, wchanCount: nat, rchanCount: nat, timeout: nat)
      returns (n: Option<int>)
      requires Valid() && |cs| == wchanCount + rchanCount && CanSelect(st, id, cs, wchanCount, msgs)
      modifies this
      ensures Valid()
      ensures Steps(old(st), Select(id, cs, wchanCount, msgs, timeout == 0), st)
      ensures id in st.sels && st.sels[id].phase == if n.None? then Blocked else Idle(n.value)
    {
      ghost var s := st;
      NextKeepsInv(s, Select(id, cs, wchanCount, msgs, timeout == 0));
      SelectReaches(s, id, cs, wchanCount, msgs);
      SetSel(id, SelRec(cs, msgs, wchanCount, rchanCount, -1, Idle(-1)),
             Sel(cs, wchanCount, msgs, -1, Idle(-1), |s.log|));
      n := ChanBlockSelect(id, timeout, FirstReady(st, st.sels[id], 0));
    }

    /** `chan_block_select_` after `lthread_cond_wait`, which returned because the timer expired or
        because the selector was signalled. */
    method AfterWait(id: nat, expired: bool) returns (n: int)
      requires Valid() && id in sels
      requires if expired then sels[id].phase.Blocked? else sels[id].phase.Woken?
      modifies this
      ensures Valid()
      ensures Steps(old(st), if expired then Timeout(id) else Resume(id), st)
      ensures n == if expired then -2 else old(sels)[id].target
    {
      ghost var s := st;
      assert IsSel(sels[id], s.sels[id]) && SelInv(s, id);
      NextKeepsInv(s, if expired then Timeout(id) else Resume(id));
      if expired && sels[id].target < 0 {
        SelRemoveAllChans(id);
        SetSel(id, sels[id].(phase := Idle(-2)), st.sels[id].(phase := Idle(-2)));
        return -2;
      }
      n := TakeTarget(id);
    }

    /** `chan_close` */
    method ChanClose(c: nat) returns (r: int)
      requires Valid() && c in chans
      modifies this
      ensures Valid()
      ensures Steps(old(st), Close(c), st)
      ensures r == if old(chans)[c].closed then -1 else 0
    {
      assert IsChan(chans[c], st.chans[c]);
      if chans[c].closed {
        return -1;
      }
      NextKeepsInv(st, Close(c));
      CloseStarts(st, c);
      MarkClosed(c);
      WakeReceivers(c);
      return 0;
    }

    method MarkClosed(c: nat)
      requires Sound() && c in chans
      modifies this
      ensures Sound() && st == old(st).(chans := old(st).chans[c := old(st).chans[c].(closed := true)])
    {
      chans := chans[c := chans[c].(closed := true)];
      st := st.(chans := st.chans[c := st.chans[c].(closed := true)]);
    }

    /** The loop of `chan_close`. */
    method WakeReceivers(c: nat)
      requires Sound() && Closing(st, c)
      modifies this
      ensures Sound() && st == WakeAll(old(st), c)
    {
      ghost var s := st;
      assert IsChan(chans[c], st.chans[c]);
      var q := chans[c].recvq;
      var k := 0;
      while k < |q|
        invariant k <= |q|
        invariant Sound() && Closing(st, c) && st.chans[c].recvq == q[k..]
        invariant WakeAll(st, c) == WakeAll(s, c)
      {
        WakeFirst(st, c);
        EndWait(c, q[k]);
        k := k + 1;
      }
    }

    /** One receiver gets the end marker and is signalled. */
    method EndWait(c: nat, w: Wait)
      requires Sound() && Closing(st, c) && st.chans[c].recvq != [] && w == st.chans[c].recvq[0]
      requires WaitOk(st, c, w, false)
      modifies this
      ensures Sound() && st == Hand(old(st), w, Null, Eof)
    {
      QueuedIsRemovable(st, -1, c, w, false);
      assert IsSel(sels[w.sel], st.sels[w.sel]);
      if sels[w.sel].target == -1 {
        GiveTo(w, Null, Eof);
        CondSignal(Some(w));
      }
    }

    /** `chan_send` (timeout FOREVER) and `chan_send_noblock` (timeout 0): refused on a closed
        channel, otherwise a select with one write. */
    method ChanSend(id: nat, c: nat, data: Msg, timeout: nat) returns (n: Option<int>)
      requires Valid() && c in chans && (id in sels ==> sels[id].phase.Idle?)
      modifies this
      ensures Valid()
      ensures old(chans)[c].closed ==> st == old(st) && n == Some(-1)
      ensures !old(chans)[c].closed ==>
                && Steps(old(st), Select(id, [c], 1, [data], timeout == 0), st)
                && id in st.sels && st.sels[id].phase == if n.None? then Blocked else Idle(n.value)
    {
      assert IsChan(chans[c], st.chans[c]) && (id in sels ==> IsSel(sels[id], st.sels[id]));
      if chans[c].closed {
        return Some(-1);
      }
      n := ChanSelect(id, [c], [data], 1, 0, timeout);
    }

    /** `chan_recv`: a select with one read. */
    method ChanRecv(id: nat, c: nat) returns (n: Option<int>)
      requires Valid() && c in chans && (id in sels ==> sels[id].phase.Idle?)
      modifies this
      ensures Valid() && Steps(old(st), Select(id, [c], 0, [Null], false), st)
      ensures id in st.sels && st.sels[id].phase == if n.None? then Blocked else Idle(n.value)
    {
      assert id in sels ==> IsSel(sels[id], st.sels[id]);
      n := ChanSelect(id, [c], [Null], 0, 1, LTHREAD_FOREVER);
    }
  }
}
