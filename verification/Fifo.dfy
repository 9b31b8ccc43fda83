/** The circular queue of src/fifo.c.  A channel owns its queue, so the queue is a record inside
    the channel's record, and each operation gives the record it leaves behind. */
module Fifo {
  import opened ChanSpec
  import opened Basics

  const INT_MAX := 0x7fff_ffff
  const POINTER_SIZE := 8

  /** `struct queue_t`; the capacity is the length of `data`. */
  datatype Queue = Queue(data: seq<Msg>, next: nat, size: nat)

  predicate Ok(q: Queue) {
    && q.size <= |q.data|
    && (if |q.data| == 0 then q.next == 0 else q.next < |q.data|)
  }

  /** The items, oldest first. */
  ghost function Items(q: Queue): (s: seq<Msg>)
    requires Ok(q)
    ensures |s| == q.size
  {
    if q.next + q.size <= |q.data| then q.data[q.next..q.next + q.size]
    else q.data[q.next..] + q.data[..q.next + q.size - |q.data|]
  }

  /** `queue_init`: refuses a capacity whose array would exceed INT_MAX bytes. */
  function Init(capacity: nat): (r: Option<Queue>)
    ensures r.Some? <==> capacity * POINTER_SIZE <= INT_MAX
    ensures r.Some? ==> Ok(r.value) && Items(r.value) == [] && |r.value.data| == capacity
  {
    if capacity > INT_MAX / POINTER_SIZE then None
    else Some(Queue(seq(capacity, i => Null), 0, 0))
  }

  /** `queue_add`: appends, or fails and changes nothing when the queue is full. */
  function Add(q: Queue, value: Msg): (r: (int, Queue))
    requires Ok(q)
    ensures Ok(r.1) && |r.1.data| == |q.data|
    ensures r.0 == if |Items(q)| < |q.data| then 0 else -1
    ensures Items(r.1) == if r.0 == 0 then Items(q) + [value] else Items(q)
  {
    if q.size >= |q.data| then (-1, q)
    else
      var sum := q.next + q.size;
      var pos := if sum >= |q.data| then sum - |q.data| else sum;
      (0, q.(data := q.data[pos := value], size := q.size + 1))
  }

  /** `queue_remove`: takes the oldest item, or yields NULL when there is none. */
  function Remove(q: Queue): (r: (Msg, Queue))
    requires Ok(q)
    ensures Ok(r.1) && |r.1.data| == |q.data|
    ensures if Items(q) == [] then r.0 == Null && r.1 == q
            else r.0 == Items(q)[0] && Items(r.1) == Items(q)[1..]
  {
    if q.size > 0 then
      var next := q.next + 1;
      (q.data[q.next], q.(next := if next >= |q.data| then next - |q.data| else next, size := q.size - 1))
    else
      (Null, q)
  }
}
