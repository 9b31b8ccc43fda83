/** The byte ring buffer of src/klib/ringbuf.c.  One byte of the buffer is never used, so that a full
    ring differs from an empty one. */
module RingBuf {
  import opened Basics

  function Min(a: nat, b: nat): nat {
    if a < b then a else b
  }

  /** `ringbuf_bytes_free` and `ringbuf_bytes_used` */
  function Free(size: nat, head: nat, tail: nat): nat
    requires head < size && tail < size
  {
    if head >= tail then size - 1 - (head - tail) else tail - head - 1
  }

  function Used(size: nat, head: nat, tail: nat): nat
    requires head < size && tail < size
  {
    size - 1 - Free(size, head, tail)
  }

  /** `ringbuf_nextp` */
  function NextP(size: nat, p: nat): nat
    requires p < size
  {
    (p + 1) % size
  }

  /** The last `n` elements. */
  ghost function Last(s: seq<Byte>, n: nat): seq<Byte> {
    if n >= |s| then s else s[|s| - n..]
  }

  /** All bytes of the buffer in the order they will be overwritten. */
  ghost function Turned(b: seq<Byte>, head: nat): (v: seq<Byte>)
    requires head <= |b|
    ensures |v| == |b|
  {
    b[head..] + b[..head]
  }

  /** What the ring holds, oldest byte first: the bytes that will be overwritten last. */
  ghost function Held(b: seq<Byte>, head: nat, tail: nat): (s: seq<Byte>)
    requires head < |b| && tail < |b|
    ensures |s| == Used(|b|, head, tail) < |b|
  {
    Turned(b, head)[|b| - Used(|b|, head, tail)..]
  }

  lemma WrapAt(x: nat, n: nat)
    requires n > 0 && x < 2 * n
    ensures x % n == if x < n then x else x - n
  {
  }

  /** They lie from the tail on, round the end of the buffer. */
  lemma HeldAt(b: seq<Byte>, head: nat, tail: nat, k: nat)
    requires head < |b| && tail < |b| && k < Used(|b|, head, tail)
    ensures Held(b, head, tail)[k] == b[(tail + k) % |b|]
  {
    WrapAt(tail + k, |b|);
  }

  /** Writing a piece that ends within the buffer. */
  lemma TurnedWrite(b: seq<Byte>, head: nat, piece: seq<Byte>)
    requires head < |b| && head + |piece| <= |b|
    ensures var b' := b[..head] + piece + b[head + |piece|..];
            var head' := if head + |piece| == |b| then 0 else head + |piece|;
            |b'| == |b| && Turned(b', head') == (Turned(b, head) + piece)[|piece|..]
  {
  }

  /** How much is held after `n` bytes have been written. */
  function UsedAfter(size: nat, head: nat, tail: nat, n: nat): nat
    requires head < size && tail < size
  {
    if n > size - 1 - Used(size, head, tail) then size - 1 else Used(size, head, tail) + n
  }

  /** After all of `src` has been written the turned buffer ends with it. */
  lemma HeldAfterWrite(b0: seq<Byte>, head0: nat, tail0: nat, b: seq<Byte>, head: nat, tail: nat, src: seq<Byte>)
    requires |b| == |b0| && head0 < |b| && tail0 < |b| && head < |b| && tail < |b|
    requires Turned(b, head) == (Turned(b0, head0) + src)[|src|..]
    requires Used(|b|, head, tail) == UsedAfter(|b|, head0, tail0, |src|)
    ensures Held(b, head, tail) == Last(Held(b0, head0, tail0) + src, |b| - 1)
  {
    EndOfWrite(Turned(b0, head0), src, Turned(b, head), Held(b0, head0, tail0), Held(b, head, tail));
  }

  lemma FullAfterNext(size: nat, head: nat)
    requires head < size
    ensures Used(size, head, NextP(size, head)) == size - 1
  {
  }

  /** In terms of sequences: `e` and `e'` are the ends held before and after. */
  lemma EndOfWrite(v: seq<Byte>, src: seq<Byte>, v': seq<Byte>, e: seq<Byte>, e': seq<Byte>)
    requires v' == (v + src)[|src|..] && |e| < |v| && e == v[|v| - |e|..]
    requires |e'| == (if |src| > |v| - 1 - |e| then |v| - 1 else |e| + |src|) && e' == v'[|v| - |e'|..]
    ensures e' == Last(e + src, |v| - 1)
  {
  }

  lemma DropDrop(s: seq<Byte>, i: nat, j: nat)
    requires i + j <= |s|
    ensures s[i..][j..] == s[i + j..]
  {
  }

  /** A run of held bytes that lies in one piece of the buffer. */
  lemma HeldRun(b: seq<Byte>, head: nat, tail: nat, offset: nat, start: nat, n: nat)
    requires head < |b| && tail < |b| && offset + n <= Used(|b|, head, tail)
    requires start + n <= |b| && start == if tail + offset < |b| then tail + offset else tail + offset - |b|
    ensures b[start..start + n] == Held(b, head, tail)[offset..offset + n]
  {
    var p, q := b[start..start + n], Held(b, head, tail)[offset..offset + n];
    forall k | 0 <= k < n ensures p[k] == q[k] {
    }
  }

  /** The ring after its oldest `n` bytes have been read. */
  lemma HeldAfterRead(b: seq<Byte>, head: nat, tail: nat, n: nat)
    requires head < |b| && tail < |b| && n <= Used(|b|, head, tail) && tail + n <= |b|
    ensures var tail' := if tail + n == |b| then 0 else tail + n;
            Held(b, head, tail') == Held(b, head, tail)[n..]
  {
    var tail' := if tail + n == |b| then 0 else tail + n;
    assert Used(|b|, head, tail') == Used(|b|, head, tail) - n;
    DropDrop(Turned(b, head), |b| - Used(|b|, head, tail), n);
  }

  lemma UsedAfterWrite(size: nat, head: nat, tail: nat, n: nat)
    requires head < size && tail < size && head + n <= size && n <= Free(size, head, tail)
    ensures Used(size, if head + n == size then 0 else head + n, tail) == Used(size, head, tail) + n
  {
  }

  /** The ring `b`, `head`, `tail` is `b0`, `head0`, `tail` after `done` has been written: its fill grows
      with what is written as long as nothing is dropped. */
  ghost predicate Filling(b0: seq<Byte>, head0: nat, tail: nat, done: seq<Byte>, b: seq<Byte>, head: nat) {
    && |b| == |b0| && head0 < |b| && head < |b| && tail < |b|
    && Turned(b, head) == (Turned(b0, head0) + done)[|done|..]
    && (|done| <= Free(|b|, head0, tail) ==> Used(|b|, head, tail) == Used(|b|, head0, tail) + |done|)
  }

  lemma FillNone(b: seq<Byte>, head: nat, tail: nat)
    requires head < |b| && tail < |b|
    ensures Filling(b, head, tail, [], b, head)
  {
  }

  lemma WriteMore(v: seq<Byte>, done: seq<Byte>, piece: seq<Byte>)
    ensures ((v + done)[|done|..] + piece)[|piece|..] == (v + (done + piece))[|done + piece|..]
  {
    assert (v + done)[|done|..] + piece == (v + (done + piece))[|done|..];
    DropDrop(v + (done + piece), |done|, |piece|);
  }

  lemma FillMore(b0: seq<Byte>, head0: nat, tail: nat, done: seq<Byte>, b: seq<Byte>, head: nat, piece: seq<Byte>)
    requires Filling(b0, head0, tail, done, b, head) && head + |piece| <= |b|
    ensures Filling(b0, head0, tail, done + piece, b[..head] + piece + b[head + |piece|..],
                    if head + |piece| == |b| then 0 else head + |piece|)
  {
    TurnedWrite(b, head, piece);
    WriteMore(Turned(b0, head0), done, piece);
    if |done + piece| <= Free(|b|, head0, tail) {
      UsedAfterWrite(|b|, head, tail, |piece|);
    }
  }

  /** `memchr`: the first index of `c`, or the length. */
  function Memchr(s: seq<Byte>, c: Byte): (k: nat)
    ensures k <= |s| && (k < |s| ==> s[k] == c) && forall j :: 0 <= j < k ==> s[j] != c
  {
    if s == [] || s[0] == c then 0 else
    var k := Memchr(s[1..], c);
    assert forall j :: 1 <= j < k + 1 ==> s[j] == s[1..][j - 1];
    k + 1
  }

  function Copies(c: Byte, n: nat): (s: seq<Byte>)
    ensures |s| == n && forall k :: 0 <= k < n ==> s[k] == c
  {
    seq(n, i => c)
  }

  /** Filling with more than the buffer holds is the same as filling it once. */
  lemma FillOnce(old_: seq<Byte>, c: Byte, len: nat, size: nat)
    requires size >= 1 && |old_| <= size - 1
    ensures Last(old_ + Copies(c, Min(len, size)), size - 1) == Last(old_ + Copies(c, len), size - 1)
  {
  }

  /** What a search of one piece says of the whole. */
  lemma SearchedPiece(s: seq<Byte>, offset: nat, piece: seq<Byte>, c: Byte)
    requires offset + |piece| <= |s| && piece == s[offset..offset + |piece|]
    ensures var f := Memchr(piece, c);
            && (forall k :: offset <= k < offset + f ==> s[k] != c)
            && (f < |piece| ==> s[offset + f] == c)
  {
    var f := Memchr(piece, c);
    forall k | offset <= k < offset + f ensures s[k] != c {
      assert s[k] == piece[k - offset];
    }
  }

  lemma SearchedRun(b: seq<Byte>, head: nat, tail: nat, offset: nat, start: nat, n: nat, c: Byte)
    requires head < |b| && tail < |b| && offset + n <= Used(|b|, head, tail)
    requires start + n <= |b| && start == if tail + offset < |b| then tail + offset else tail + offset - |b|
    ensures var f, s := Memchr(b[start..start + n], c), Held(b, head, tail);
            && (forall k :: offset <= k < offset + f ==> s[k] != c)
            && (f < n ==> s[offset + f] == c)
  {
    HeldRun(b, head, tail, offset, start, n);
    SearchedPiece(Held(b, head, tail), offset, b[start..start + n], c);
  }

  lemma LastOfAll(s: seq<Byte>, n: nat)
    requires |s| <= n
    ensures Last([] + s, n) == s
  {
  }

  class Ring {
    var buf: array<Byte>
    var head: nat
    var tail: nat

    ghost predicate Valid()
      reads this
    {
      head < buf.Length && tail < buf.Length
    }

    ghost function Contents(): seq<Byte>
      reads this, buf
      requires Valid()
    {
      Held(buf[..], head, tail)
    }

    /** `ringbuf_new` */
    constructor (capacity: nat)
      ensures Valid() && fresh(buf) && buf.Length == capacity + 1 && Contents() == []
    {
      buf := new Byte[capacity + 1];
      head, tail := 0, 0;
    }

    /** Copies a piece to the head and moves the head past it, round the end of the buffer. */
    method Put(piece: seq<Byte>)
      requires Valid() && head + |piece| <= buf.Length
      modifies this`head, buf
      ensures buf[..] == old(buf[..head]) + piece + old(buf[head + |piece|..])
      ensures head == if old(head) + |piece| == buf.Length then 0 else old(head) + |piece|
    {
      var n := |piece|;
      forall i | 0 <= i < n {
        buf[head + i] := piece[i];
      }
      head := head + n;
      if head == buf.Length {
        head := 0;
      }
    }

    /** The same, as part of writing more. */
    method PutNext(piece: seq<Byte>, ghost b0: seq<Byte>, ghost head0: nat, ghost done: seq<Byte>)
      requires Filling(b0, head0, tail, done, buf[..], head) && head + |piece| <= buf.Length
      modifies this`head, buf
      ensures Filling(b0, head0, tail, done + piece, buf[..], head)
    {
      FillMore(b0, head0, tail, done, buf[..], head, piece);
      Put(piece);
    }

    /** All is written: when it was too much, the ring is now full. */
    method Settle(overflow: bool, ghost b0: seq<Byte>, ghost head0: nat, ghost done: seq<Byte>)
      requires Filling(b0, head0, tail, done, buf[..], head)
      requires overflow == (|done| > Free(buf.Length, head0, tail))
      modifies this`tail
      ensures Valid() && Contents() == Last(Held(b0, head0, old(tail)) + done, buf.Length - 1)
    {
      if overflow {
        FullAfterNext(buf.Length, head);
        tail := NextP(buf.Length, head);
      }
      HeldAfterWrite(b0, head0, old(tail), buf[..], head, tail, done);
    }

    /** One turn of the loop of `ringbuf_memcpy_into`: as much as lies in one piece. */
    method PutPiece(src: seq<Byte>, r: nat, ghost b0: seq<Byte>, ghost head0: nat) returns (n: nat)
      requires r < |src| && Filling(b0, head0, tail, src[..r], buf[..], head)
      modifies this`head, buf
      ensures 0 < n && r + n <= |src| && Filling(b0, head0, tail, src[..r + n], buf[..], head)
    {
      n := Min(buf.Length - head, |src| - r);
      PutNext(src[r..r + n], b0, head0, src[..r]);
      assert src[..r] + src[r..r + n] == src[..r + n];
    }

    /** The loop of `ringbuf_memcpy_into`. */
    method PutAll(src: seq<Byte>, ghost b0: seq<Byte>, ghost head0: nat)
      requires Filling(b0, head0, tail, [], buf[..], head)
      modifies this`head, buf
      ensures Filling(b0, head0, tail, src, buf[..], head)
    {
      var nread := 0;
      assert src[..0] == [] && src[..|src|] == src;
      while nread != |src|
        invariant nread <= |src| && Filling(b0, head0, tail, src[..nread], buf[..], head)
      {
        var n := PutPiece(src, nread, b0, head0);
        nread := nread + n;
      }
    }

    /** `ringbuf_memcpy_into`: what was held and what is new, without the oldest bytes when it is too
        much. */
    method MemcpyInto(src: seq<Byte>)
      requires Valid()
      modifies this`head, this`tail, buf
      ensures Valid() && Contents() == Last(old(Contents()) + src, buf.Length - 1)
    {
      var overflow := |src| > Free(buf.Length, head, tail);
      FillNone(buf[..], head, tail);
      PutAll(src, buf[..], head);
      Settle(overflow, old(buf[..]), old(head), src);
    }

    /** Takes `n` bytes from the tail and moves the tail past them, round the end of the buffer. */
    method Take(n: nat) returns (piece: seq<Byte>)
      requires Valid() && n <= |Contents()| && tail + n <= buf.Length
      modifies this`tail
      ensures Valid() && |piece| == n && old(Contents()) == piece + Contents()
    {
      HeldRun(buf[..], head, tail, 0, tail, n);
      HeldAfterRead(buf[..], head, tail, n);
      piece := buf[tail..tail + n];
      tail := tail + n;
      if tail == buf.Length {
        tail := 0;
      }
    }

    /** The loop of `ringbuf_memcpy_from`. */
    method TakeAll(count: nat) returns (out: seq<Byte>)
      requires Valid() && count <= |Contents()|
      modifies this`tail
      ensures Valid() && |out| == count && old(Contents()) == out + Contents()
    {
      out := [];
      while |out| != count
        invariant Valid() && |out| <= count && old(Contents()) == out + Contents()
      {
        var n := Min(buf.Length - tail, count - |out|);
        var piece := Take(n);
        Regrouped(out, piece, Contents());
        out := out + piece;
      }
    }

    /** `ringbuf_memcpy_from`: the oldest bytes, or nothing when fewer are held. */
    method MemcpyFrom(count: nat) returns (r: Option<seq<Byte>>)
      requires Valid()
      modifies this`tail
      ensures Valid()
      ensures count > |old(Contents())| ==> r == None && Contents() == old(Contents())
      ensures count <= |old(Contents())| ==>
                r == Some(old(Contents())[..count]) && Contents() == old(Contents())[count..]
    {
      if count > Used(buf.Length, head, tail) {
        return None;
      }
      var out := TakeAll(count);
      return Some(out);
    }

    /** One turn of the loop of `ringbuf_memset`. */
    method FillPiece(c: Byte, count: nat, r: nat, ghost b0: seq<Byte>, ghost head0: nat) returns (n: nat)
      requires r < count && Filling(b0, head0, tail, Copies(c, r), buf[..], head)
      modifies this`head, buf
      ensures 0 < n && r + n <= count && Filling(b0, head0, tail, Copies(c, r + n), buf[..], head)
    {
      n := Min(buf.Length - head, count - r);
      PutNext(Copies(c, n), b0, head0, Copies(c, r));
      assert Copies(c, r) + Copies(c, n) == Copies(c, r + n);
    }

    /** The loop of `ringbuf_memset`. */
    method FillAll(c: Byte, count: nat, ghost b0: seq<Byte>, ghost head0: nat) returns (nwritten: nat)
      requires Filling(b0, head0, tail, [], buf[..], head)
      modifies this`head, buf
      ensures nwritten == count && Filling(b0, head0, tail, Copies(c, count), buf[..], head)
    {
      nwritten := 0;
      assert Copies(c, 0) == [];
      while nwritten != count
        invariant nwritten <= count && Filling(b0, head0, tail, Copies(c, nwritten), buf[..], head)
      {
        var n := FillPiece(c, count, nwritten, b0, head0);
        nwritten := nwritten + n;
      }
    }

    /** Writes `count` bytes `c`. */
    method Fill(c: Byte, count: nat) returns (nwritten: nat)
      requires Valid()
      modifies this`head, this`tail, buf
      ensures Valid() && nwritten == count && Contents() == Last(old(Contents()) + Copies(c, count), buf.Length - 1)
    {
      var overflow := count > Free(buf.Length, head, tail);
      FillNone(buf[..], head, tail);
      nwritten := FillAll(c, count, buf[..], head);
      Settle(overflow, old(buf[..]), old(head), Copies(c, count));
    }

    /** `ringbuf_memset` */
    method Memset(c: Byte, len: nat) returns (nwritten: nat)
      requires Valid()
      modifies this`head, this`tail, buf
      ensures Valid() && nwritten == Min(len, buf.Length)
      ensures Contents() == Last(old(Contents()) + Copies(c, len), buf.Length - 1)
    {
      FillOnce(Contents(), c, len, buf.Length);
      nwritten := Fill(c, Min(len, buf.Length));
    }

    /** Searches the bytes from `offset` on that lie in one piece. */
    method SearchPiece(c: Byte, offset: nat) returns (n: nat, found: nat)
      requires Valid() && offset < |Contents()|
      ensures found <= n && 0 < n <= |Contents()| - offset
      ensures forall k :: offset <= k < offset + found ==> Contents()[k] != c
      ensures found < n ==> Contents()[offset + found] == c
    {
      var start := (tail + offset) % buf.Length;
      n := Min(buf.Length - start, Used(buf.Length, head, tail) - offset);
      WrapAt(tail + offset, buf.Length);
      found := Memchr(buf[start..start + n], c);
      SearchedRun(buf[..], head, tail, offset, start, n, c);
      assert buf[..][start..start + n] == buf[start..start + n];
    }

    /** `ringbuf_findchr`: the least offset of `c` at or after `offset`, or the number of bytes held. */
    method FindChr(c: Byte, offset: nat) returns (r: nat)
      requires Valid()
      ensures r <= |Contents()| && (r < |Contents()| ==> offset <= r && Contents()[r] == c)
      ensures forall k :: offset <= k < r ==> Contents()[k] != c
      decreases Used(buf.Length, head, tail) - offset
    {
      if offset >= Used(buf.Length, head, tail) {
        return Used(buf.Length, head, tail);
      }
      var n, found := SearchPiece(c, offset);
      if found < n {
        return offset + found;
      }
      r := FindChr(c, offset + n);
    }

    /** One turn of the loop of `ringbuf_copy`: as much as lies in one piece in both buffers. */
    method CopyPiece(src: Ring, rest: nat, ghost b0: seq<Byte>, ghost head0: nat, ghost done: seq<Byte>)
      returns (ghost piece: seq<Byte>, n: nat)
      requires src.Valid() && src != this && src.buf != buf && 0 < rest <= |src.Contents()|
      requires Filling(b0, head0, tail, done, buf[..], head)
      modifies this`head, buf, src`tail
      ensures src.Valid() && n == |piece| && 0 < n <= rest && old(src.Contents()) == piece + src.Contents()
      ensures Filling(b0, head0, tail, done + piece, buf[..], head)
    {
      var nsrc := Min(src.buf.Length - src.tail, rest);
      n := Min(buf.Length - head, nsrc);
      var bytes := src.Take(n);
      PutNext(bytes, b0, head0, done);
      piece := bytes;
    }

    /** The loop of `ringbuf_copy`. */
    method CopyAll(src: Ring, count: nat, ghost b0: seq<Byte>, ghost head0: nat) returns (ghost done: seq<Byte>)
      requires src.Valid() && src != this && src.buf != buf && count <= |src.Contents()|
      requires Filling(b0, head0, tail, [], buf[..], head)
      modifies this`head, buf, src`tail
      ensures src.Valid() && |done| == count && old(src.Contents()) == done + src.Contents()
      ensures Filling(b0, head0, tail, done, buf[..], head)
    {
      var ncopied := 0;
      done := [];
      while ncopied != count
        invariant src.Valid() && ncopied == |done| <= count && old(src.Contents()) == done + src.Contents()
        invariant Filling(b0, head0, tail, done, buf[..], head)
      {
        ghost var piece;
        var n;
        piece, n := CopyPiece(src, count - ncopied, b0, head0, done);
        ncopied := ncopied + n;
        Regrouped(done, piece, src.Contents());
        done := done + piece;
      }
    }

    /** `ringbuf_copy` from another ring. */
    method CopyFrom(src: Ring, count: nat) returns (ok: bool)
      requires Valid() && src.Valid() && src != this && src.buf != buf
      modifies this`head, this`tail, buf, src`tail
      ensures Valid() && src.Valid() && ok == (count <= |old(src.Contents())|)
      ensures !ok ==> Contents() == old(Contents()) && src.Contents() == old(src.Contents())
      ensures ok ==> Contents() == Last(old(Contents()) + old(src.Contents())[..count], buf.Length - 1)
      ensures ok ==> src.Contents() == old(src.Contents())[count..]
    {
      if count > Used(src.buf.Length, src.head, src.tail) {
        return false;
      }
      var overflow := count > Free(buf.Length, head, tail);
      FillNone(buf[..], head, tail);
      ghost var data := CopyAll(src, count, buf[..], head);
      Settle(overflow, old(buf[..]), old(head), data);
      return true;
    }

    /** The buffer is replaced by one of at least twice the capacity and room for `count` more. */
    method Enlarge(count: nat)
      requires Valid()
      modifies this
      ensures Valid() && fresh(buf) && Contents() == old(Contents()) && Free(buf.Length, head, tail) >= count
    {
      var used := Used(buf.Length, head, tail);
      var bigger := new Ring((buf.Length - 1) * 2 + count);
      ghost var held := Contents();
      assert held[..used] == held;
      var ok := bigger.CopyFrom(this, used);
      LastOfAll(held, bigger.buf.Length - 1);
      buf, head, tail := bigger.buf, bigger.head, bigger.tail;
    }

    /** `ringbuf_append_into`: a larger buffer when there is no room, so nothing is dropped. */
    method AppendInto(src: seq<Byte>)
      requires Valid()
      modifies this, buf
      ensures Valid() && Contents() == old(Contents()) + src
      ensures buf == old(buf) || fresh(buf)
    {
      if Free(buf.Length, head, tail) < |src| {
        Enlarge(|src|);
      }
      MemcpyInto(src);
    }
  }
}
