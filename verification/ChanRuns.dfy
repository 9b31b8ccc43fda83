/** Whole runs of the channel protocol: the close step, the invariant in every reachable state,
    and what it means over time. */
module ChanRuns {
  import opened Basics
  import opened ChanSpec

  /* ---------- Close ---------- */

  /** The state between two iterations of the loop in `chan_close`: everything is in order except
      that receivers may still be queued on the closed channel. */
  ghost predicate Closing(s: State, c: nat) {
    && c in s.chans && s.chans[c].closed
    && Queues(s) && SelectorsBut(s, -1) && Known(s)
    && forall d :: d in s.chans ==>
        BufInv(s.chans[d]) && LogInv(s.log, s.chans[d], d) && (d != c ==> OpenInv(s.chans[d]))
  }

  /** The receivers queued on one channel belong to different selectors. */
  lemma ReceiversDiffer(s: State, c: nat)
    requires SelectorsBut(s, -1) && c in s.chans && QueueInv(s, c)
    ensures Differ(s.chans[c].recvq)
  {
    var q := s.chans[c].recvq;
    forall j, k | 0 <= j < k < |q| ensures q[j].sel != q[k].sel {
      if q[j].sel == q[k].sel {
        OneWaitPerQueue(s, c, q, false, j, k);
      }
    }
  }

  ghost predicate Differ(q: seq<Wait>) {
    forall j, k :: 0 <= j < k < |q| ==> q[j].sel != q[k].sel
  }

  lemma DropFirst(q: seq<Wait>)
    requires q != [] && Differ(q)
    ensures Drop(q, q[0].sel) == q[1..]
  {
    DropIsRemoval([], q[0], q[1..]);
    assert [] + [q[0]] + q[1..] == q;
  }

  lemma WakeFirstKeepsChan(s: State, c: nat, d: nat)
    requires Closing(s, c) && s.chans[c].recvq != []
    requires WaitOk(s, c, s.chans[c].recvq[0], false)
    requires d in s.chans
    ensures var s' := Hand(s, s.chans[c].recvq[0], Null, Eof);
            BufInv(s'.chans[d]) && LogInv(s'.log, s'.chans[d], d) && (d != c ==> OpenInv(s'.chans[d]))
  {
    var w := s.chans[c].recvq[0];
    var s' := Hand(s, w, Null, Eof);
    LogAppend(s.log, Event(Eof, c, w.sel, w.idx, Null), s.chans[d], s'.chans[d], d);
  }

  /** One iteration: the first receiver leaves, and only it. */
  lemma WakeFirst(s: State, c: nat)
    requires Closing(s, c) && s.chans[c].recvq != []
    ensures WaitOk(s, c, s.chans[c].recvq[0], false)
    ensures var s' := Hand(s, s.chans[c].recvq[0], Null, Eof);
            Closing(s', c) && s'.chans[c].recvq == s.chans[c].recvq[1..]
  {
    var q := s.chans[c].recvq;
    assert QueueInv(s, c);
    var s' := Hand(s, q[0], Null, Eof);
    ReceiversDiffer(s, c);
    DropFirst(q);
    HandKeeps(s, c, q[0], Null, Eof, -1);
    forall d | d in s'.chans
      ensures BufInv(s'.chans[d]) && LogInv(s'.log, s'.chans[d], d) && (d != c ==> OpenInv(s'.chans[d]))
    {
      WakeFirstKeepsChan(s, c, d);
    }
  }

  lemma {:induction false} WakeAllKeepsInv(s: State, c: nat)
    requires Closing(s, c)
    ensures Inv(WakeAll(s, c))
    decreases |s.chans[c].recvq|
  {
    if s.chans[c].recvq == [] {
    } else {
      WakeFirst(s, c);
      WakeAllKeepsInv(Hand(s, s.chans[c].recvq[0], Null, Eof), c);
    }
  }

  lemma CloseStarts(s: State, c: nat)
    requires Inv(s) && c in s.chans && !s.chans[c].closed
    ensures Closing(s.(chans := s.chans[c := s.chans[c].(closed := true)]), c)
  {
    var s1 := s.(chans := s.chans[c := s.chans[c].(closed := true)]);
    forall d | d in s1.chans ensures QueueInv(s1, d) {
      assert QueueInv(s, d);
    }
    forall j | j in s1.sels ensures SelInv(s1, j) {
      assert SelInv(s, j);
    }
    forall d | d in s1.chans
      ensures BufInv(s1.chans[d]) && LogInv(s1.log, s1.chans[d], d) && (d != c ==> OpenInv(s1.chans[d]))
    {
      assert ChanInv(s.log, s.chans[d], d);
    }
  }

  lemma CloseKeepsInv(s: State, c: nat)
    requires Inv(s) && c in s.chans && !s.chans[c].closed
    ensures Inv(CloseOpen(s, c))
  {
    CloseStarts(s, c);
    WakeAllKeepsInv(s.(chans := s.chans[c := s.chans[c].(closed := true)]), c);
  }

  /** End markers for the waits of a queue, in queue order. */
  function EofEvents(c: nat, q: seq<Wait>): seq<Event> {
    seq(|q|, k requires 0 <= k < |q| => Event(Eof, c, q[k].sel, q[k].idx, Null))
  }

  /** The selector of `w` as the close leaves it. */
  function Ended(sel: Sel, idx: nat): Sel
    requires idx < |sel.msgs|
  {
    sel.(msgs := sel.msgs[idx := Null], target := idx, phase := Woken)
  }

  /** Exactly the selectors of the waits in `q` were ended. */
  ghost predicate EndedBy(sels: map<nat, Sel>, sels': map<nat, Sel>, q: seq<Wait>) {
    && sels'.Keys == sels.Keys
    && (forall k :: 0 <= k < |q| ==>
          && q[k].sel in sels && q[k].idx < |sels[q[k].sel].msgs|
          && sels'[q[k].sel] == Ended(sels[q[k].sel], q[k].idx))
    && (forall id :: id in sels && !InQueue(q, id) ==> sels'[id] == sels[id])
  }

  ghost predicate InQueue(q: seq<Wait>, id: nat) {
    exists k :: 0 <= k < |q| && q[k].sel == id
  }

  /** The queue without the selectors that have a wait in `woken`, in the same order. */
  ghost function DropAll(q: seq<Wait>, woken: seq<Wait>): (r: seq<Wait>)
    ensures forall w :: w in r <==> w in q && !InQueue(woken, w.sel)
  {
    if q == [] then []
    else
      var w := q[|q| - 1];
      assert q == q[..|q| - 1] + [w];
      DropAll(q[..|q| - 1], woken) + if InQueue(woken, w.sel) then [] else [w]
  }

  ghost function DetachAll(chans: map<nat, Chan>, woken: seq<Wait>): map<nat, Chan> {
    map d | d in chans :: WithoutAll(chans[d], woken)
  }

  ghost function WithoutAll(ch: Chan, woken: seq<Wait>): Chan {
    ch.(sendq := DropAll(ch.sendq, woken), recvq := DropAll(ch.recvq, woken))
  }

  lemma InQueueCons(q: seq<Wait>, id: nat)
    requires q != []
    ensures InQueue(q, id) <==> q[0].sel == id || InQueue(q[1..], id)
  {
    if InQueue(q, id) && q[0].sel != id {
      var k :| 0 <= k < |q| && q[k].sel == id;
      assert q[1..][k - 1].sel == id;
    }
    if InQueue(q[1..], id) {
      var k :| 0 <= k < |q[1..]| && q[1..][k].sel == id;
      assert q[k + 1].sel == id;
    }
  }

  lemma DropAllAppend(q: seq<Wait>, w: Wait, woken: seq<Wait>)
    ensures DropAll(q + [w], woken) == DropAll(q, woken) + if InQueue(woken, w.sel) then [] else [w]
  {
    assert (q + [w])[..|q|] == q;
  }

  /** Leaving the queue one after the other, in the order of `woken`. */
  lemma {:induction false} DropAllCons(q: seq<Wait>, woken: seq<Wait>)
    requires woken != []
    ensures DropAll(q, woken) == DropAll(Drop(q, woken[0].sel), woken[1..])
  {
    if q == [] {
    } else {
      var front, w := q[..|q| - 1], q[|q| - 1];
      DropAllCons(front, woken);
      InQueueCons(woken, w.sel);
      DropAllAppend(Drop(front, woken[0].sel), w, woken[1..]);
      assert Drop(front, woken[0].sel) + [] == Drop(front, woken[0].sel);
    }
  }

  lemma {:induction false} DropAllNone(q: seq<Wait>)
    ensures DropAll(q, []) == q
  {
    if q == [] {
    } else {
      DropAllNone(q[..|q| - 1]);
      assert q == q[..|q| - 1] + [q[|q| - 1]];
    }
  }

  lemma WithoutAllCons(ch: Chan, woken: seq<Wait>)
    requires woken != []
    ensures WithoutAll(ch, woken) == WithoutAll(Without(ch, woken[0].sel), woken[1..])
  {
    DropAllCons(ch.sendq, woken);
    DropAllCons(ch.recvq, woken);
  }

  lemma DetachAllCons(chans: map<nat, Chan>, woken: seq<Wait>)
    requires woken != []
    ensures DetachAll(chans, woken) == DetachAll(Detach(chans, woken[0].sel), woken[1..])
  {
    var a, b := DetachAll(chans, woken), DetachAll(Detach(chans, woken[0].sel), woken[1..]);
    assert a.Keys == b.Keys;
    forall d | d in chans ensures a[d] == b[d] {
      WithoutAllCons(chans[d], woken);
    }
  }

  lemma DetachAllNone(chans: map<nat, Chan>)
    ensures DetachAll(chans, []) == chans
  {
    forall d | d in chans ensures WithoutAll(chans[d], []) == chans[d] {
      DropAllNone(chans[d].sendq);
      DropAllNone(chans[d].recvq);
    }
  }

  /** What closing `c` does to `s`: one end marker for each queued receiver, in queue order; the woken
      selectors leave every queue, all others stay where they are; and nothing happens to any other
      selector, buffer or flag. */
  ghost predicate ClosedTo(s: State, s': State, c: nat)
    requires c in s.chans
  {
    && s'.log == s.log + EofEvents(c, s.chans[c].recvq)
    && s'.chans == DetachAll(s.chans, s.chans[c].recvq) && s'.chans[c].recvq == []
    && EndedBy(s.sels, s'.sels, s.chans[c].recvq)
  }

  lemma EndedStep(sels: map<nat, Sel>, sels': map<nat, Sel>, q: seq<Wait>)
    requires q != [] && Differ(q)
    requires q[0].sel in sels && q[0].idx < |sels[q[0].sel].msgs|
    requires EndedBy(sels[q[0].sel := Ended(sels[q[0].sel], q[0].idx)], sels', q[1..])
    ensures EndedBy(sels, sels', q)
  {
  }

  lemma ClosedStep(s: State, s1: State, s': State, c: nat, q: seq<Wait>)
    requires c in s.chans && s.chans[c].recvq == q != [] && Differ(q)
    requires q[0].sel in s.sels && q[0].idx < |s.sels[q[0].sel].msgs|
    requires s1.sels == s.sels[q[0].sel := Ended(s.sels[q[0].sel], q[0].idx)]
    requires s1.log == s.log + [Event(Eof, c, q[0].sel, q[0].idx, Null)]
    requires s1.chans == Detach(s.chans, q[0].sel) && s1.chans[c].recvq == q[1..]
    requires ClosedTo(s1, s', c)
    ensures ClosedTo(s, s', c)
  {
    EndedStep(s.sels, s'.sels, q);
    EofEventsCons(s.log, c, q);
    DetachAllCons(s.chans, q);
  }

  lemma EofEventsCons(log: seq<Event>, c: nat, q: seq<Wait>)
    requires q != []
    ensures log + EofEvents(c, q) == log + [Event(Eof, c, q[0].sel, q[0].idx, Null)] + EofEvents(c, q[1..])
  {
  }

  lemma ClosedNothing(s: State, c: nat)
    requires c in s.chans && s.chans[c].recvq == []
    ensures ClosedTo(s, s, c)
  {
    DetachAllNone(s.chans);
  }

  lemma WakeAllStep(s: State, s': State, c: nat, w: Wait)
    requires Closing(s, c) && s.chans[c].recvq != [] && w == s.chans[c].recvq[0]
    requires WaitOk(s, c, w, false)
    requires Hand(s, w, Null, Eof).chans[c].recvq == s.chans[c].recvq[1..]
    requires ClosedTo(Hand(s, w, Null, Eof), s', c)
    ensures ClosedTo(s, s', c)
  {
    assert Differ(s.chans[c].recvq) by {
      assert QueueInv(s, c);
      ReceiversDiffer(s, c);
    }
    ClosedStep(s, Hand(s, w, Null, Eof), s', c, s.chans[c].recvq);
  }

  lemma {:induction false} WakeAllMeaning(s: State, c: nat)
    requires Closing(s, c)
    ensures ClosedTo(s, WakeAll(s, c), c)
    decreases |s.chans[c].recvq|
  {
    if s.chans[c].recvq == [] {
      ClosedNothing(s, c);
    } else {
      var w := s.chans[c].recvq[0];
      WakeFirst(s, c);
      WakeAllMeaning(Hand(s, w, Null, Eof), c);
      WakeAllStep(s, WakeAll(Hand(s, w, Null, Eof), c), c, w);
    }
  }

  /** Closing a channel wakes every receiver blocked on it exactly once, with the end marker, takes it
      off all its queues, and leaves the others in order; messages still buffered or offered by blocked
      senders stay. */
  lemma CloseWakesEachReceiverOnce(s: State, c: nat)
    requires Inv(s) && c in s.chans && !s.chans[c].closed
    ensures var s' := CloseOpen(s, c);
            && ClosedTo(s.(chans := s.chans[c := s.chans[c].(closed := true)]), s', c)
            && s'.chans[c] == s.chans[c].(closed := true, recvq := [])
            && (forall d :: d in s.chans && d != c ==> s'.chans[d] == WithoutAll(s.chans[d], s.chans[c].recvq))
  {
    CloseStarts(s, c);
    var s1 := s.(chans := s.chans[c := s.chans[c].(closed := true)]);
    WakeAllMeaning(s1, c);
    SendersStay(s1, c);
  }

  lemma SendersStay(s: State, c: nat)
    requires c in s.chans && BufInv(s.chans[c])
    ensures DropAll(s.chans[c].sendq, s.chans[c].recvq) == s.chans[c].sendq
  {
    if s.chans[c].recvq == [] {
      DropAllNone(s.chans[c].sendq);
    }
  }

  /* ---------- Runs ---------- */

  /** One atomic step of the system.  A select that is retried, a plain send and a plain receive
      are selects too; `noblock` is a timeout of 0. */
  datatype Op =
    | Open(c: nat, cap: nat)
    | Select(id: nat, chans: seq<nat>, writes: nat, msgs: seq<Msg>, noblock: bool)
    | Resume(id: nat)
    | Timeout(id: nat)
    | Close(c: nat)

  ghost predicate Enabled(s: State, op: Op) {
    match op
    case Open(c, cap) => c !in s.chans
    case Select(id, chans, writes, msgs, noblock) => CanSelect(s, id, chans, writes, msgs)
    case Resume(id) => id in s.sels && s.sels[id].phase.Woken?
    case Timeout(id) => id in s.sels && s.sels[id].phase.Blocked?
    case Close(c) => c in s.chans
  }

  ghost function Next(s: State, op: Op): State
    requires Inv(s) && Enabled(s, op)
  {
    match op
    case Open(c, cap) => s.(chans := s.chans[c := Chan(cap, [], false, [], [])])
    case Select(id, chans, writes, msgs, noblock) =>
      BeginIsCalling(s, id, chans, writes, msgs);
      Attempt(Begin(s, id, chans, writes, msgs), id, noblock)
    case Resume(id) => Finish(s, id)
    case Timeout(id) => Expire(s, id)
    case Close(c) => if s.chans[c].closed then s else CloseOpen(s, c)
  }

  ghost predicate Steps(s: State, op: Op, s': State) {
    Inv(s) && Enabled(s, op) && s' == Next(s, op)
  }

  lemma OpenKeepsInv(s: State, c: nat, cap: nat)
    requires Inv(s) && c !in s.chans
    ensures Inv(s.(chans := s.chans[c := Chan(cap, [], false, [], [])]))
  {
    var s' := s.(chans := s.chans[c := Chan(cap, [], false, [], [])]);
    forall d | d in s'.chans ensures QueueInv(s', d) {
      OpenKeepsQueue(s, c, cap, d);
    }
    forall j | j in s'.sels ensures SelInv(s', j) {
      OpenKeepsSel(s, c, cap, j);
    }
    forall d | d in s'.chans ensures ChanInv(s'.log, s'.chans[d], d) {
      if d == c {
        OpenedInv(s.log, c, cap);
      }
    }
  }

  lemma OpenKeepsQueue(s: State, c: nat, cap: nat, d: nat)
    requires c !in s.chans && (d in s.chans ==> QueueInv(s, d)) && (d in s.chans || d == c)
    ensures QueueInv(s.(chans := s.chans[c := Chan(cap, [], false, [], [])]), d)
  {
  }

  lemma OpenKeepsSel(s: State, c: nat, cap: nat, j: nat)
    requires c !in s.chans && j in s.sels && SelInv(s, j)
    ensures SelInv(s.(chans := s.chans[c := Chan(cap, [], false, [], [])]), j)
  {
  }

  lemma OpenedInv(log: seq<Event>, c: nat, cap: nat)
    requires forall p :: 0 <= p < |log| ==> log[p].chan != c
    ensures ChanInv(log, Chan(cap, [], false, [], []), c)
  {
    NoEvents(log, c);
  }

  lemma {:induction false} NoEvents(log: seq<Event>, c: nat)
    requires forall p :: 0 <= p < |log| ==> log[p].chan != c
    ensures Msgs(log, Put, c) == Msgs(log, Take, c) == []
  {
    if log == [] {
    } else {
      NoEvents(log[..|log| - 1], c);
    }
  }

  /** The scan asserts only what its caller guarantees. */
  lemma SelectReaches(s: State, id: nat, chans: seq<nat>, writes: nat, msgs: seq<Msg>)
    requires Inv(s) && CanSelect(s, id, chans, writes, msgs)
    ensures var s1 := Begin(s, id, chans, writes, msgs);
            && Calling(s1, id) && Channels(s1)
            && forall i :: 0 <= i < writes && i <= FirstReady(s1, s1.sels[id], 0) ==> !s1.chans[chans[i]].closed
  {
    BeginIsCalling(s, id, chans, writes, msgs);
    var s1 := Begin(s, id, chans, writes, msgs);
    var r := FirstReady(s1, s1.sels[id], 0);
    forall i | 0 <= i < writes && i <= r ensures !s.chans[chans[i]].closed {
      forall j | 0 <= j < i ensures !SendReady(s.chans[chans[j]]) {
        assert !Ready(s1, s1.sels[id], j);
      }
    }
  }

  lemma SelectKeepsInv(s: State, id: nat, chans: seq<nat>, writes: nat, msgs: seq<Msg>, noblock: bool)
    requires Inv(s) && CanSelect(s, id, chans, writes, msgs)
    ensures Calling(Begin(s, id, chans, writes, msgs), id)
    ensures Inv(Attempt(Begin(s, id, chans, writes, msgs), id, noblock))
  {
    SelectReaches(s, id, chans, writes, msgs);
    AttemptKeepsInv(Begin(s, id, chans, writes, msgs), id, noblock);
  }

  lemma ResumeKeepsInv(s: State, id: nat)
    requires Inv(s) && id in s.sels && s.sels[id].phase.Woken?
    ensures Inv(Finish(s, id))
  {
    var s' := Finish(s, id);
    assert SelInv(s, id);
    SwapSel(s, s', id);
    assert SelInv(s', id);
  }

  /** Every step keeps the invariant. */
  lemma NextKeepsInv(s: State, op: Op)
    requires Inv(s) && Enabled(s, op)
    ensures Inv(Next(s, op))
  {
    match op
    case Open(c, cap) => OpenKeepsInv(s, c, cap);
    case Select(id, chans, writes, msgs, noblock) => SelectKeepsInv(s, id, chans, writes, msgs, noblock);
    case Resume(id) => ResumeKeepsInv(s, id);
    case Timeout(id) => ExpireKeepsInv(s, id);
    case Close(c) => if !s.chans[c].closed { CloseKeepsInv(s, c); }
  }

  /** The operations of `ops` are possible one after the other, starting with no channels. */
  ghost predicate Legal(ops: seq<Op>)
    decreases |ops|, 0
  {
    ops == [] || (Legal(ops[..|ops| - 1]) && Enabled(Exec(ops[..|ops| - 1]), ops[|ops| - 1]))
  }

  /** The state a run ends in; the invariant holds in every one of them. */
  ghost function Exec(ops: seq<Op>): (s: State)
    requires Legal(ops)
    ensures Inv(s)
    decreases |ops|, 1
  {
    if ops == [] then State(map[], map[], [])
    else
      var s := Exec(ops[..|ops| - 1]);
      NextKeepsInv(s, ops[|ops| - 1]);
      Next(s, ops[|ops| - 1])
  }

  /* ---------- What the invariant means over time ---------- */

  /** The log only grows, by at least nothing. */
  lemma AttemptGrowsLog(s: State, id: nat, noblock: bool)
    requires Calling(s, id)
    ensures s.log <= Attempt(s, id, noblock).log
  {
    var r := FirstReady(s, s.sels[id], 0);
    if r < s.sels[id].writes {
      SendKeepsSelectors(s, id, r);
    } else if r < |s.sels[id].chans| {
      RecvKeepsSelectors(s, id, r);
    }
  }

  lemma NextGrowsLog(s: State, op: Op)
    requires Inv(s) && Enabled(s, op)
    ensures s.log <= Next(s, op).log
  {
    if op.Close? && !s.chans[op.c].closed {
      CloseWakesEachReceiverOnce(s, op.c);
    } else if op.Select? {
      BeginIsCalling(s, op.id, op.chans, op.writes, op.msgs);
      AttemptGrowsLog(Begin(s, op.id, op.chans, op.writes, op.msgs), op.id, op.noblock);
    }
  }

  lemma {:induction false} HistoryGrows(ops: seq<Op>, k: nat)
    requires Legal(ops) && k <= |ops|
    ensures Legal(ops[..k]) && Exec(ops[..k]).log <= Exec(ops).log
    decreases |ops|
  {
    if k == |ops| {
      assert ops[..k] == ops;
    } else {
      var before := ops[..|ops| - 1];
      HistoryGrows(before, k);
      assert before[..k] == ops[..k];
      NextGrowsLog(Exec(before), ops[|ops| - 1]);
    }
  }

  lemma {:induction false} MsgsOfPrefix(log: seq<Event>, log': seq<Event>, k: Kind, c: nat)
    requires log <= log'
    ensures Msgs(log, k, c) <= Msgs(log', k, c)
    decreases |log'|
  {
    if log == log' {
    } else {
      MsgsOfPrefix(log, log'[..|log'| - 1], k, c);
    }
  }

  /** In every run and at every moment of it, what receivers of `c` have taken by then is a prefix
      of what senders of `c` have put by the end, what is in between is the bounded buffer, and
      both histories only grow: no message is lost, duplicated or reordered. */
  lemma MessagesArriveInOrder(ops: seq<Op>, k: nat, c: nat)
    requires Legal(ops) && k <= |ops|
    ensures Legal(ops[..k])
    ensures Msgs(Exec(ops[..k]).log, Take, c) <= Msgs(Exec(ops).log, Put, c)
    ensures Msgs(Exec(ops[..k]).log, Take, c) <= Msgs(Exec(ops).log, Take, c)
    ensures c in Exec(ops).chans ==>
              && Msgs(Exec(ops).log, Put, c) == Msgs(Exec(ops).log, Take, c) + Exec(ops).chans[c].buf
              && |Exec(ops).chans[c].buf| <= Exec(ops).chans[c].cap
  {
    HistoryGrows(ops, k);
    var early, late := Exec(ops[..k]), Exec(ops);
    MsgsOfPrefix(early.log, late.log, Take, c);
    if c in late.chans {
      assert ChanInv(late.log, late.chans[c], c);
    } else {
      NoEvents(late.log, c);
    }
  }

  /** Once a receiver of `c` was given the end marker, no message is put or taken on `c` in the
      rest of the run, and by then everything ever put had been taken. */
  lemma EndMarkerIsFinal(ops: seq<Op>, k: nat, c: nat)
    requires Legal(ops) && k <= |ops|
    ensures Legal(ops[..k])
    ensures HasEof(Exec(ops[..k]).log, c) ==>
              && Msgs(Exec(ops).log, Put, c) == Msgs(Exec(ops[..k]).log, Put, c)
              && Msgs(Exec(ops).log, Take, c) == Msgs(Exec(ops[..k]).log, Put, c)
  {
    HistoryGrows(ops, k);
    var early, late := Exec(ops[..k]), Exec(ops);
    if HasEof(early.log, c) {
      var p :| 0 <= p < |early.log| && early.log[p].kind == Eof && early.log[p].chan == c;
      assert late.log[p] == early.log[p];
      assert ChanInv(early.log, early.chans[c], c);
      assert late.log[p].chan in late.chans;
      assert ChanInv(late.log, late.chans[c], c);
      OnlyEofs(early.log, late.log, c, p);
    }
  }

  lemma {:induction false} OnlyEofs(log: seq<Event>, log': seq<Event>, c: nat, p: nat)
    requires log <= log' && p < |log|
    requires log[p].kind == Eof && log[p].chan == c && QuietAfterEof(log', c)
    ensures Msgs(log', Put, c) == Msgs(log, Put, c) && Msgs(log', Take, c) == Msgs(log, Take, c)
    decreases |log'|
  {
    if log == log' {
    } else {
      assert log'[p] == log[p];
      OnlyEofs(log, log'[..|log'| - 1], c, p);
    }
  }

  /** A selector stays blocked only while none of its positions could proceed: its senders face a
      full buffer and no receiver, its receivers an open, empty channel and no sender. */
  lemma BlockedMeansNotReady(ops: seq<Op>, id: nat, i: nat)
    requires Legal(ops)
    requires id in Exec(ops).sels && Exec(ops).sels[id].phase.Blocked?
    requires i < |Exec(ops).sels[id].chans|
    ensures Shape(Exec(ops), Exec(ops).sels[id])
    ensures !Ready(Exec(ops), Exec(ops).sels[id], i)
  {
    var s := Exec(ops);
    var sel := s.sels[id];
    assert SelInv(s, id);
    var c := sel.chans[i];
    assert c in s.chans && ChanInv(s.log, s.chans[c], c);
    assert Wait(id, i) in (if i < sel.writes then s.chans[c].sendq else s.chans[c].recvq);
  }

  /** A select that returned `r >= 0` moved exactly one message (or end marker), at position `r`,
      and left it in slot `r`; one that returned a negative value moved none. */
  lemma OneExchangePerCall(ops: seq<Op>, id: nat)
    requires Legal(ops) && id in Exec(ops).sels && Exec(ops).sels[id].phase.Idle?
    ensures var s := Exec(ops); var sel := s.sels[id]; var r := sel.phase.result;
            && sel.mark <= |s.log|
            && (r < 0 <==> Own(s.log, id, sel.mark) == [])
            && (r >= 0 ==> Exchanged(s.log, sel, id, r))
            && (forall c, w :: c in s.chans && (w in s.chans[c].sendq || w in s.chans[c].recvq) ==> w.sel != id)
  {
    var s := Exec(ops);
    assert SelInv(s, id);
    forall c, w | c in s.chans && (w in s.chans[c].sendq || w in s.chans[c].recvq) ensures w.sel != id {
      assert QueueInv(s, c);
    }
  }

  /** A select takes the first ready position, sends before receives, and blocks or fails only
      when no position is ready. */
  lemma SelectTakesFirstReady(s: State, id: nat, chans: seq<nat>, writes: nat, msgs: seq<Msg>, noblock: bool)
    requires Inv(s) && CanSelect(s, id, chans, writes, msgs)
    ensures var s1 := Begin(s, id, chans, writes, msgs);
            var r := FirstReady(s1, s1.sels[id], 0);
            var s' := Next(s, Select(id, chans, writes, msgs, noblock));
            && id in s'.sels
            && (r < |chans| ==> s'.sels[id].phase == Idle(r) && Exchanged(s'.log, s'.sels[id], id, r))
            && (r == |chans| && noblock ==> s'.sels[id].phase == Idle(-1) && s'.chans == s.chans && s'.log == s.log)
            && (r == |chans| && !noblock ==> s'.sels[id].phase == Blocked && s'.log == s.log)
  {
    BeginIsCalling(s, id, chans, writes, msgs);
    var s1 := Begin(s, id, chans, writes, msgs);
    var r := FirstReady(s1, s1.sels[id], 0);
    if r < writes {
      SendKeepsSelectors(s1, id, r);
    } else if r < |chans| {
      RecvKeepsSelectors(s1, id, r);
    }
  }
}
