# Verified models of lthread

lthread is a cooperative coroutine runtime for C with Go-like channels.  This project models its
protocols and its harder data structures in Dafny and proves what they promise.

| files | what they model |
|---|---|
| `ChanSpec.dfy`, `ChanRuns.dfy` | channels, selectors, time-outs and close as a step machine, and what holds in every run of it |
| `Fifo.dfy`, `Channel.dfy` | `src/fifo.c` and `src/chan.c` as imperative code that refines that machine |
| `Handoff.dfy`, `HandoffRuns.dfy` | schedulers, compute schedulers and the lthreads that move between them, as a step machine over any number of pthreads |
| `ForeignSignal.dfy` | a run of two schedulers in which a signal crosses from one to the other |
| `Timers.dfy`, `Mutex.dfy` | the sleeping set of a scheduler, and the recursive mutex |
| `Probe.dfy`, `KHash.dfy`, `KBits.dfy` | the hash table of `src/klib/khash.h`: its probe sequence, the table, and the packed words and rounding that the table's flags and sizes stand for |
| `BoyerMoore.dfy` | the string search of `src/klib/kstring.c` |
| `RbSpec.dfy`, `RbTree.dfy` | the red-black tree of `src/tree.h`, with parent pointers |
| `Xxtea.dfy` | the cipher of `src/klib/xxtea.c` and the byte strings around it |
| `RingBuf.dfy` | the byte ring buffer of `src/klib/ringbuf.c` |
| `Basics.dfy`, `Arith.dfy` | shared types; sequences without repetition; powers of two, remainders and sizes of sets |

`dafny verify dfyconfig.toml` checks the whole project.

## How to read it

**Channels.**  lthreads switch only inside `lthread_cond_wait`, so an attempt of a select up to the
point where it blocks is one step, and so are a close, a time-out and the return of a woken select.
`ChanSpec` gives each step as a function on a value (`State`) that also keeps a history of what was
put, taken and ended.  `Channel.Runtime` is the C code over mutable fields; each public method ends in
the state that `Steps(old(st), op, st)` names, and `ChanRuns` proves what every sequence of such steps
keeps.  A select may name at most eight distinct channels (`LTHR_SEL_CHANS`), and no write channel that
its scan reaches may be closed (the assertion in `chan_try_send`).  All users of a channel are on one
scheduler: waking a partner is `lthread_cond_signal`, which `ForeignSignal` shows unsafe across
schedulers.

**Schedulers.**  A step is a stretch of code whose middle no other pthread can see: a section under one
lock, or code that touches only what its pthread owns.  Between two steps of one pthread any number of
steps of others may happen.  The field `at` says which structures hold an lthread; no step reads it.
A signal follows the code for any waiter: the waiter leaves the sleeping set of its own scheduler and
joins the ready queue of the caller's.

**Mirror images.**  `src/tree.h` writes each case of rebalancing twice, left and right.  The model has
it once, with a `Side`.

**Where the code and its comments differ**, the model follows the code.  A channel whose capacity
exceeds `INT_MAX / sizeof(void*)` is created unbuffered, although `src/fifo.c` calls that an error.  A
receive from a closed, drained channel returns a non-negative index and a null message, not the error
that `src/chan.h` describes.  `LTHREAD_FOREVER` is a finite time-out, so a plain send or receive can
return -2.

**Properties that do not hold for all inputs** are stated with their exact condition.
`HandoffRuns.StepIsProper` says of every step that it keeps the invariant exactly when it is not a
signal to a waiter of another scheduler; so a run keeps it while its signals stay on their own scheduler
(`Legal`), and `ForeignSignal.RunsOnBoth` is a run with one other signal after which one lthread
executes on two pthreads.  `KHash.Table.Put` inserts a new key exactly when fewer than 2^31 keys are
live (`FullTable` is the table where it does not).  `Xxtea.DyptEypt` gives the data back exactly when its length is below 2^32
(`TooLong` is the shortest that does not come back); the division by the 32-bit word count traps exactly
when the count is a multiple of 2^32.  `Mutex.StepIsProper` keeps mutual exclusion exactly when a lock is
not by another lthread with the holder's id, and an unlock is by the holder or of a free mutex
(`StrangerUnlocks` is two holders after an unlock).  The mutex compares ids, which are counted per
scheduler: `ExclusiveOnOneScheduler` proves exclusion for the lthreads of one scheduler,
`SharedByTwoSchedulers` is two lthreads of two schedulers that hold it after one lock each, and
`SameIdsShare` says that any two lthreads with one id do.

## Model

| member | source | states |
|---|---|---|
| ChanRuns.MessagesArriveInOrder | src/chan.c:305-454 | in every run of opens, selects, time-outs, returns and closes, what was put on a channel is what was taken from it followed by its buffer, within capacity; what had been taken at any earlier moment is a prefix of both: nothing is lost, duplicated or reordered |
| ChanRuns.EndMarkerIsFinal | src/chan.c:410-454 | once a receiver was given the end marker, everything ever put had been taken, and the rest of the run puts and takes nothing on that channel |
| ChanRuns.OneExchangePerCall | src/chan.c:305-367 | a select that returned an index exchanged exactly one message, there, and holds it in that slot; one that failed or timed out exchanged none; neither is left in any queue |
| ChanRuns.BlockedMeansNotReady | src/chan.c:343-367 | in every run a selector is blocked only while none of its positions could proceed, so no wake-up is lost |
| ChanRuns.SelectTakesFirstReady | src/chan.c:305-340 | a select exchanges at its first ready position, sends before receives, and fails or blocks only when there is none |
| ChanRuns.CloseWakesEachReceiverOnce | src/chan.c:43-70 | closing gives each blocked receiver the end marker exactly once, in order; the channel keeps its buffer and its blocked senders in order and has no receivers left; every other channel is the old one without the waits of the woken selectors, in the same order |
| ChanRuns.CloseKeepsInv | src/chan.c:43-70 | closing keeps the channel invariant, although every woken receiver leaves several queues |
| ChanRuns.NextKeepsInv | src/chan.c:305-474 | every step keeps the invariant: a wait in a queue belongs to a blocked selector and stands there once; a non-empty recvq means an empty buffer, no blocked sender and an open channel; a non-empty sendq means a full buffer; histories agree |
| ChanRuns.Exec | src/chan.c:305-474 | the state after any legal run satisfies the invariant |
| ChanRuns.HistoryGrows | src/chan.c:305-454 | the history at any moment of a run is a prefix of the history at its end |
| ChanSpec.SendKeepsInv | src/chan.c:369-408 | a send, through the buffer or straight to a waiting receiver, keeps the invariant |
| ChanSpec.RecvKeepsInv | src/chan.c:410-454 | a receive, with the refill from a blocked sender or the end marker, keeps the invariant |
| ChanSpec.BlockKeepsInv | src/chan.c:343-354 | queueing at every position keeps the invariant, because none of them is ready |
| ChanSpec.ExpireKeepsInv | src/chan.c:356-361 | a time-out takes the selector off all its queues and keeps the invariant |
| ChanSpec.HandKeeps | src/chan.c:396-401 | completing one waiter removes all its waits and disturbs no other selector or queue |
| ChanSpec.OneWaitPerQueue | src/chan.c:343-354 | a selector stands at most once in each queue |
| ChanSpec.DropIsRemoval | src/chan.c:456-474 | leaving a queue removes exactly the one wait and keeps the order of the others |
| Channel.Runtime.ChanInit | src/chan.c:13-31 | a new channel, unbuffered when the queue is refused |
| Channel.Runtime.ChanSelect | src/chan.c:142-149 | performs the select step; the result is the index, -1, or blocked, as the step says |
| Channel.Runtime.ChanBlockSelect | src/chan.c:305-354 | the two scans, the signal, and the queueing, up to the wait, are the step `Attempt` |
| Channel.Runtime.AfterWait | src/chan.c:356-366 | after the wait: -2 and off all queues when the timer woke it, else the index its partner stored |
| Channel.Runtime.ChanTrySend | src/chan.c:369-408 | succeeds exactly when there is room or a waiting receiver, and then performs the send step |
| Channel.Runtime.ChanTryRecv | src/chan.c:410-454 | succeeds exactly when there is a message, a blocked sender or the end, and then performs the receive step |
| Channel.Runtime.SelRemoveAllChans | src/chan.c:456-474 | removes the selector's wait from the queue of each of its channels and keeps both counts equal to the queue lengths |
| Channel.Runtime.ChanClose | src/chan.c:43-70 | -1 and no change when closed already, else the close step |
| Channel.Runtime.ChanSend | src/chan.c:78-116 | for any time-out, with 0 for `chan_send_noblock`: -1 and no change on a closed channel, else a select with one send |
| Channel.Runtime.ChanRecv | src/chan.c:118-129 | a select with one receive |
| Fifo.Init | src/fifo.c:26-50 | refuses exactly the capacities whose array would exceed INT_MAX bytes; else an empty queue |
| Fifo.Add | src/fifo.c:61-79 | appends to the items, or fails and changes nothing exactly when full |
| Fifo.Remove | src/fifo.c:83-99 | takes the oldest item, or null exactly when empty |
| HandoffRuns.NeverOnTwoPthreads | src/lthread_compute.c:67-146 | in every interleaving whose signals stay on their own scheduler no lthread executes on two pthreads, be they schedulers or compute schedulers |
| HandoffRuns.OnlyListedHaveWork | src/lthread_compute.c:265-281 | a compute scheduler that has left the list to be freed has nothing in its queue or in its hand |
| HandoffRuns.HandedToListed | src/lthread_compute.c:127-139 | while an lthread is handed over, its compute scheduler is still in the list |
| HandoffRuns.SuspendedAreHeld | src/lthread_sched.c:396-405 | every lthread that has not exited and is not in its scheduler's hand is ready, sleeping, waiting or busy, and everything in defer is in busy |
| HandoffRuns.DoneMeansExited | src/lthread_sched.c:149-173 | `lthread_run` leaves its loop only when all its lthreads have exited and defer is empty, though the test does not look at defer |
| HandoffRuns.TimedOutStillQueued | src/lthread.c:416-430 | `lthread_cond_wait` sees the expired bit exactly when the lthread is still in the queue it then leaves |
| HandoffRuns.StepIsProper | src/lthread_sched.c:158-203 | a step of a scheduler, an lthread or a compute scheduler keeps the invariant if and only if it is not a signal to a waiter of another scheduler |
| HandoffRuns.RunKeepsInv | src/lthread_sched.c:149-203 | the invariant holds after every run whose signals stay on their own scheduler |
| ForeignSignal.RunsOnBoth | src/lthread.c:432-441 | a run that is legal up to one signal from another scheduler, and leaves one lthread executing on two pthreads |
| HandoffRuns.ComputeBeginKeeps | src/lthread_compute.c:67-114 | choosing or creating a compute scheduler and queueing the running lthread on it keeps the invariant |
| HandoffRuns.AfterSwitchKeeps | src/lthread.c:172-196 | the code after the switch back puts a pending lthread in busy, and keeps the invariant |
| HandoffRuns.AddKeeps | src/lthread_compute.c:127-139 | clearing the pending bit under the lock lets the compute scheduler have the lthread |
| HandoffRuns.TakeKeeps | src/lthread_compute.c:224-238 | a compute scheduler takes only an lthread whose scheduler has switched away from it and let it go, and the invariant holds |
| HandoffRuns.DeferKeeps | src/lthread_compute.c:240-247 | the lthread goes back through defer, and is in busy meanwhile |
| HandoffRuns.UnlinkKeeps | src/lthread_compute.c:265-276 | leaving the list with an empty queue strands nobody |
| HandoffRuns.PopDeferKeeps | src/lthread_sched.c:192-203 | taking an lthread from defer takes it off busy, and nobody else has it |
| HandoffRuns.SignalKeeps | src/lthread.c:432-441 | a signalled lthread of the caller's scheduler is a blocked one, never ready or running already, and the invariant holds |
| HandoffRuns.SignalIsOwn | src/lthread.c:432-441 | a signal, with whatever waiter is first in the queue, keeps the invariant if and only if the waiter belongs to the caller's scheduler |
| HandoffRuns.ResumeKeeps | src/lthread.c:416-430 | a resumed waiter leaves busy, and the queue when its timer woke it |
| HandoffRuns.SuspendKeeps | src/lthread_sched.c:366-405 | every way to suspend puts the lthread into exactly the structures that can wake it |
| HandoffRuns.ExpireKeeps | src/lthread_sched.c:422-433 | an expired lthread leaves the sleeping and waiting sets before it is resumed |
| Handoff.OneLthread | src/lthread_compute.c:67-146 | a step that changes only what is said of one lthread keeps the invariant if that lthread is left in order |
| Timers.Timers.SchedSleep | src/lthread_sched.c:366-394 | the deadline is the least one at or after the requested one that nobody has; a sleep of 0 ms sets none |
| Timers.Timers.ResumeExpired | src/lthread_sched.c:412-437 | for whatever sleeps and cancellations the woken lthreads perform: a pass ends, wakes in the order of deadlines, none early, leaves none due behind, and misses none unless a woken lthread cancels the timer of another |
| Timers.ActsSetLater | src/lthread_sched.c:366-394 | any sequence of sleeps and cancellations during a pass sets only deadlines that are not due in it |
| Timers.SleepIsLater | src/lthread_sched.c:376-386 | a sleep that begins during a pass is not due in that pass |
| Mutex.MutualExclusion | src/lthread.c:476-505 | in every run whose users have distinct ids and where only holders unlock, at most one lthread holds the mutex, the stored id is the holder's, the count is its depth, so a locked mutex has a holder, and lthreads wait only while somebody holds it |
| Mutex.ExclusiveOnOneScheduler | src/lthread.c:347-347 | with the ids that `lthread_create` gives, that condition holds of the first 2^32 lthreads of one scheduler, so at most one of them holds the mutex |
| Mutex.SharedByTwoSchedulers | src/lthread.c:476-490 | lthreads with the same number on two schedulers, as the first of each, both hold the mutex after one lock each |
| Mutex.SameIdsShare | src/lthread.c:478-482 | any two lthreads with one id both hold the mutex after one lock each, with no unlock: distinct ids are needed |
| Mutex.IdsOnOneScheduler | src/lthread.c:347-347 | two lthreads of one scheduler have the same id exactly when their numbers agree modulo 2^32 |
| Mutex.LockIsProper | src/lthread.c:476-490 | a lock keeps the mutex invariant exactly when the mutex is not held by another lthread with the caller's id |
| Mutex.UnlockIsProper | src/lthread.c:492-505 | an unlock keeps it exactly when the caller is the holder, whatever the ids, or the mutex is free |
| Mutex.StrangerUnlocks | src/lthread.c:492-505 | an unlock by another lthread lets two lthreads hold the mutex, whatever their ids |
| Mutex.StepIsProper | src/lthread.c:476-505 | every lock, unlock, wake-up and time-out keeps the mutex invariant, except exactly a lock by another lthread with the holder's id and an unlock of a held mutex by another lthread than the holder |
| Probe.ProbesCover | src/klib/khash.h:233-241 | for a power of two of n buckets the first n probes reach every bucket |
| Probe.ProbesDiffer | src/klib/khash.h:233-241 | the first n probes are all different |
| Probe.ReturnsLate | src/klib/khash.h:237-240 | the walk comes back to its start only after all buckets have been seen, so the exit at the start misses nothing |
| Probe.WrapUnderMask | src/klib/khash.h:238-238 | the 32-bit wrap of the probe counter does not show under the mask |
| KHash.Table.Get | src/klib/khash.h:230-243 | ends, and finds the bucket of a key with its value exactly when the key is in the map |
| KHash.Table.Put | src/klib/khash.h:307-348 | a key in the map is found and nothing changes; a new key is added and nothing else changes, exactly when fewer than 2^31 keys are live |
| KHash.FullTable | src/klib/khash.h:307-348 | the table of 2^31 live buckets, where a new key gets the bucket of another |
| KHash.Table.Del | src/klib/khash.h:349-355 | removes exactly the key of a live bucket and leaves every other key reachable |
| KHash.Table.Clear | src/klib/khash.h:223-229 | the empty map, same number of buckets |
| KHash.Table.Resize | src/klib/khash.h:244-306 | growing, shrinking or clearing tombstones keeps the map; refused exactly when the keys would not fit below the load limit |
| KHash.Table.Rehash | src/klib/khash.h:268-304 | the in-place rehash ends and leaves the same map, with every non-empty bucket live |
| KHash.Table.MoveAll | src/klib/khash.h:268-295 | after the pass every key is at its new bucket, on its new probe path, with its value |
| KHash.Table.PlaceChain | src/klib/khash.h:277-293 | the kick-out loop ends and places the key in hand and every key it displaces |
| KHash.KickOut | src/klib/khash.h:283-286 | swapping with a key not yet moved loses neither |
| KHash.Table.EnsureRoom | src/klib/khash.h:310-318 | before a put there is an empty bucket to spare, unless the table has 2^31 buckets |
| KHash.Table.FindSlot | src/klib/khash.h:319-335 | the bucket of the key, else a free one on its probe path, else the table is full |
| KHash.DeleteKeeps | src/klib/khash.h:349-355 | a tombstone cuts no probe path |
| KHash.NewSizeNearby | src/klib/khash.h:249-250 | asking for one bucket less keeps the size, one more doubles it, and the largest size wraps to four |
| KHash.Table.constructor | src/klib/khash.h:212-214 | the empty map |
| KHash.Table.SetValue | src/klib/khash.h:521-521 | changes the value of that key only |
| KBits.PackedDelete | src/klib/khash.h:171-171 | the two bits of one bucket change, and those of no other |
| KBits.PackedTake | src/klib/khash.h:169-169 | an empty bucket becomes live, and no other changes |
| KBits.PackedPut | src/klib/khash.h:170-170 | any bucket becomes live, and no other changes |
| KBits.PacksDelete | src/klib/khash.h:171-171 | packed words that stand for the table's flags still do when a live bucket is marked deleted |
| KBits.PacksTake | src/klib/khash.h:169-169 | the same for an empty bucket that becomes live |
| KBits.PacksPut | src/klib/khash.h:170-170 | the same for any bucket that becomes live |
| KBits.PacksFresh | src/klib/khash.h:255-255 | words of bytes 0xaa stand for a table of empty buckets |
| KBits.RoundUpAgrees | src/klib/khash.h:176-176 | the shifts and ors of `kroundup32` compute the size that the table's resize asks for, for every 32-bit number |
| KBits.KRoundUp32 | src/klib/khash.h:176-176 | the least power of two at or above x, or 0 when it has 33 bits |
| BoyerMoore.Search | src/klib/kstring.c:176-195 | the leftmost occurrence, or none exactly when there is none; a table kept from an earlier search for the same pattern serves as well |
| BoyerMoore.Prep | src/klib/kstring.c:136-174 | the table of the pattern: least consistent shifts, and last positions of bytes |
| BoyerMoore.Suffixes | src/klib/kstring.c:146-160 | each entry is the length of the longest common suffix of the prefix and the pattern |
| BoyerMoore.SuffIsLongest | src/klib/kstring.c:146-160 | that entry in terms of slices: a common suffix, and no longer one is |
| BoyerMoore.GoodSuffixes | src/klib/kstring.c:161-171 | each entry is the least shift consistent with a mismatch there |
| BoyerMoore.BorderLoop | src/klib/kstring.c:162-168 | after the border loops each entry is the least border shift past its position |
| BoyerMoore.BadChars | src/klib/kstring.c:141-144 | the distance of the last occurrence of each byte from the end, or the length |
| BoyerMoore.Skipped | src/klib/kstring.c:187-190 | no occurrence starts between a mismatch and the next position tried |
| RbTree.Head.Insert | src/tree.h:590-619 | returns the node with an equal key, itself when it is in the tree already, and changes nothing; else adds exactly the new node; order, links, colours and black heights hold |
| RbTree.Head.Remove | src/tree.h:523-588 | removes exactly that node; order, links, colours and black heights hold |
| RbTree.Head.Find | src/tree.h:621-637 | the node with the key, or null exactly when there is none |
| RbTree.Head.MinMax | src/tree.h:704-717 | the least or greatest node, or null when empty |
| RbTree.Head.SetKey | src/lthread_sched.c:376-383 | a node outside the tree may get a new key; the tree stays in order and no other key changes |
| RbTree.Head.InsertColor | src/tree.h:401-443 | from a red node that may be below a red one, back to a red-black tree of the same nodes |
| RbTree.Head.RemoveColor | src/tree.h:445-521 | from a subtree one black node short, back to a red-black tree of the same nodes |
| RbTree.Head.Rotate | src/tree.h:336-374 | a rotation moves one subtree, all links with it, and keeps the order |
| RbTree.Head.RemoveTwo | src/tree.h:532-571 | the successor takes the place and colour of the removed node |
| RbTree.Head.constructor | src/tree.h:300-302 | the empty tree |
| RbSpec.HeightIsLogarithmic | src/tree.h:47-55 | 2^(height/2) is at most the number of nodes plus one |
| RbSpec.LinksAgree | src/tree.h:306-312 | children and parents of a tree point at each other |
| Xxtea.DyptEypt | src/klib/xxtea.c:252-260 | for every key, decrypting what was encrypted gives the data back exactly when its length is below 2^32; longer data trap in encryption, exactly when the framed word count is a multiple of 2^32, or are refused in decryption |
| Xxtea.TooLong | src/klib/xxtea.c:104-108 | 2^32 bytes do not come back |
| Xxtea.CipherInverse | src/klib/xxtea.c:158-200 | encryption and decryption of words undo each other, both ways, whatever the mixing function and whatever the 32-bit count makes of the length, unless it is zero |
| Xxtea.SumZero | src/klib/xxtea.c:186-197 | the round constant is zero only after all rounds, because DELTA is odd |
| Xxtea.EncryptWords | src/klib/xxtea.c:158-178 | the loop in place computes the rounds on the words the 32-bit count covers; it traps exactly when that count is zero |
| Xxtea.DecryptWords | src/klib/xxtea.c:180-200 | the loop in place ends after exactly the rounds of encryption and inverts them; it traps exactly when the 32-bit count is zero |
| Xxtea.Eypt | src/klib/xxtea.c:202-255 | frames, packs and encrypts; null for empty data, a trap when the 32-bit word count is zero |
| Xxtea.Dypt | src/klib/xxtea.c:226-260 | decrypts and checks the length word; null for empty or malformed data, a trap when the 32-bit word count is zero |
| Xxtea.UnframedFramed | src/klib/xxtea.c:95-156 | the length check accepts every genuine length below 2^32 and refuses longer ones |
| Xxtea.BytesOfWords | src/klib/xxtea.c:95-156 | unpacking undoes packing, whatever the length modulo four |
| Xxtea.WordsOfBytes | src/klib/xxtea.c:95-156 | packing undoes unpacking |
| Xxtea.FixKey | src/klib/xxtea.c:87-92 | the key stops at its first zero byte |
| Xxtea.KeyTail | src/klib/xxtea.c:87-92 | keys that agree up to their first zero byte encrypt alike, and each decrypts what the other encrypted |
| RingBuf.Ring.MemcpyInto | src/klib/ringbuf.c:203-229 | the ring holds the last `capacity` bytes of old and new together, however often the head wraps |
| RingBuf.Ring.Memset | src/klib/ringbuf.c:173-201 | the same for a run of equal bytes of any length |
| RingBuf.Ring.MemcpyFrom | src/klib/ringbuf.c:276-300 | takes exactly the oldest bytes, or nothing when fewer are held |
| RingBuf.Ring.CopyFrom | src/klib/ringbuf.c:327-363 | moves exactly the oldest bytes of another ring, dropping the oldest of this one when full |
| RingBuf.Ring.AppendInto | src/klib/ringbuf.c:231-246 | never drops a byte |
| RingBuf.Ring.FindChr | src/klib/ringbuf.c:154-171 | the least offset of the byte at or after the given one, or the number of bytes held |
| RingBuf.HeldAt | src/klib/ringbuf.c:162-163 | the byte at an offset lies that far after the tail, round the end of the buffer |
| RingBuf.Ring.constructor | src/klib/ringbuf.c:41-58 | an empty ring of the given capacity |

## Left out

- Memory: failing allocations, `free`, and the life of structures (`chan_dispose`, `kh_destroy`, `ringbuf_free`, the late signal to a compute scheduler's `run_mutex`).  `kmemmem` without a cache keeps its table when it finds a match; the model has no notion of that leak.
- Channel queues: the ring of a buffered channel is a record inside the channel's record and its operations give a new record, so update in place and aliasing of that array are not modelled.  The records of all channels and selectors are values in two maps.
- Fifo.Add: on values, as said above.
- RbTree.Head.Insert: node fields are cells in a map from node numbers, so two trees that share nodes through different entry fields are two maps.
- KHash.Table.Put: `-1` for failed allocations is not modelled; arrays are sequence fields, and `x & mask` is `x % n` for a power of two n.  Flags are a sequence of values; `KBits` ties them to the packed words operation by operation.
- KHash.Table.Del: a bucket number above the number of buckets is outside the array in the source too, and is excluded.
- BoyerMoore.Search: an empty pattern is excluded, as the source indexes position -1; lengths do not overflow `int`.
- Xxtea.Eypt: data whose words do not fit `size_t` bytes are excluded, as no buffer holds them; little-endian packing only.
- RingBuf.Ring.CopyFrom: the two rings are distinct; `size_t` does not overflow in capacities.
- Timers.Timers.SchedSleep: deadlines do not wrap at 2^64 microseconds.
- HandoffRuns.StepIsProper: reads and writes of the `state` word are atomic, and so are operations on the queue of a condition variable, which the source guards with no lock even when lthreads of several schedulers wait on it; the creation of a compute scheduler is one step, and `lthread_join`, `lthread_io`, `lthread_poll`, `lthread_cancel` and `lthread_wakeup` are no steps; the last two can leave an lthread in a queue while it is also ready.
- Mutex.StepIsProper: a call runs to its next wait undisturbed, as it does among the lthreads of one scheduler; calls from two pthreads at once, which the source does not guard, are no steps.  The count does not overflow `int`, and the signed counter of created lthreads is taken to wrap.
- Wake-up latency and fairness: only safety is proved.
- Assembly, stacks, `madvise`, pthread primitives, epoll and kqueue, sockets, DNS, HTTP, the multiplexer, and `time.c`: foreign calls and I/O.
- Typed channel wrappers, `chan_size`, `queue_peek`, `RB_NFIND`, `RB_NEXT`, `RB_PREV`, `ringbuf_read`, `ringbuf_write`: they would only add easy members.
- The splay tree macros and `src/common/rbtree.c`: never instantiated here, and a second copy of the same algorithm.
