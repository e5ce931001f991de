/** The single-producer/single-consumer sample queue, modelled as a sequential object.
    The storage holds one slot more than the usable capacity, so that `head == tail` means
    empty and `head + 1 == tail` (modulo the storage size) means full. */
module RingBuffers {

  function Min(a: int, b: int): int { if a <= b then a else b }

  /** Occupied slots between the read cursor `t` and the write cursor `h` on a ring of `n`
      slots: `Available` of the source. */
  function Occupancy(h: nat, t: nat, n: nat): (r: nat)
    requires h < n && t < n
    ensures r < n
    ensures r == (h - t) % n
  {
    if h >= t then ModSmall(h - t, n); h - t
    else ModNegative(h - t, n); n - t + h
  }

  /** Bounds on a multiple of a positive `n`, enough to pin down a quotient. */
  lemma MultipleBounds(q: int, n: int)
    requires n > 0
    ensures q >= 1 ==> q * n >= n
    ensures q >= 2 ==> q * n >= 2 * n
    ensures q <= 0 ==> q * n <= 0
    ensures q <= -1 ==> q * n <= -n
  {
  }

  /** A number already in [0, n) is its own remainder. */
  lemma ModSmall(a: int, n: int)
    requires 0 <= a < n
    ensures a % n == a
  {
    MultipleBounds(a / n, n);
  }

  /** A number in [-n, 0) leaves the remainder a + n. */
  lemma ModNegative(a: int, n: int)
    requires -n <= a < 0
    ensures a % n == a + n
  {
    MultipleBounds(a / n, n);
  }

  /** A number in [n, 2n) leaves the remainder a - n. */
  lemma ModOnce(a: int, n: int)
    requires 0 < n <= a < 2 * n
    ensures a % n == a - n
  {
    MultipleBounds(a / n, n);
  }

  /** The slot `k` places after slot `t`. */
  function Slot(t: nat, k: nat, n: nat): (r: nat)
    requires t < n && k < n
    ensures r < n
    ensures r == (t + k) % n
  {
    if t + k < n then ModSmall(t + k, n); t + k
    else ModOnce(t + k, n); t + k - n
  }

  /** The `len` values stored from slot `t` onwards, wrapping at the end of `buf`. */
  ghost function Segment<T>(buf: seq<T>, t: nat, len: nat): (s: seq<T>)
    requires t < |buf| && len < |buf|
    ensures |s| == len
  {
    seq(len, k requires 0 <= k < len => buf[Slot(t, k, |buf|)])
  }

  /** Advancing a cursor by one slot: `(h + 1) % n`. */
  lemma NextSlot(h: nat, n: nat)
    requires h < n
    ensures (h + 1) % n == if h + 1 < n then h + 1 else 0
  {
    if h + 1 < n {
      ModSmall(h + 1, n);
    } else {
      ModOnce(h + 1, n);
    }
  }

  /** Storing `x` at the write cursor and advancing it appends `x` to the segment,
      provided the ring was not full. */
  lemma SegmentPush<T>(buf: seq<T>, h: nat, t: nat, x: T)
    requires h < |buf| && t < |buf|
    requires Occupancy(h, t, |buf|) < |buf| - 1
    ensures Occupancy((h + 1) % |buf|, t, |buf|) == Occupancy(h, t, |buf|) + 1
    ensures Segment(buf[h := x], t, Occupancy(h, t, |buf|) + 1) == Segment(buf, t, Occupancy(h, t, |buf|)) + [x]
  {
    var n, len := |buf|, Occupancy(h, t, |buf|);
    NextSlot(h, n);
    assert Slot(t, len, n) == h;
    var a, b := Segment(buf[h := x], t, len + 1), Segment(buf, t, len) + [x];
    forall k | 0 <= k < len + 1
      ensures a[k] == b[k]
    {
      if k < len {
        assert Slot(t, k, n) != h;
      }
    }
  }

  /** Taking the value at the read cursor and advancing it removes the first element of a
      non-empty segment. */
  lemma SegmentPop<T>(buf: seq<T>, h: nat, t: nat)
    requires h < |buf| && t < |buf| && h != t
    ensures Occupancy(h, (t + 1) % |buf|, |buf|) == Occupancy(h, t, |buf|) - 1
    ensures Segment(buf, t, Occupancy(h, t, |buf|))
         == [buf[t]] + Segment(buf, (t + 1) % |buf|, Occupancy(h, t, |buf|) - 1)
  {
    var n, len := |buf|, Occupancy(h, t, |buf|);
    NextSlot(t, n);
    var a, b := Segment(buf, t, len), [buf[t]] + Segment(buf, (t + 1) % n, len - 1);
    forall k | 0 <= k < len
      ensures a[k] == b[k]
    {
      if k > 0 {
        assert Slot(t, k, n) == Slot((t + 1) % n, k - 1, n);
      }
    }
  }

  /** One step of a read: the value at the read cursor is the next expected one, and the
      rest of the segment is what remains expected. */
  lemma SegmentAdvance<T>(buf: seq<T>, h: nat, t: nat, q: seq<T>, n: nat)
    requires h < |buf| && t < |buf| && h != t && n <= |q|
    requires Segment(buf, t, Occupancy(h, t, |buf|)) == q[n..]
    ensures n < |q| && buf[t] == q[n]
    ensures (t + 1) % |buf| < |buf|
    ensures Occupancy(h, (t + 1) % |buf|, |buf|) == Occupancy(h, t, |buf|) - 1
    ensures Segment(buf, (t + 1) % |buf|, Occupancy(h, t, |buf|) - 1) == q[n + 1..]
  {
    SegmentPop(buf, h, t);
    assert q[n..] == [q[n]] + q[n + 1..];
  }

  class RingBuffer<T(0)> {
    const buffer: array<T>
    /** Size of the storage: the usable capacity plus the slot kept empty. */
    const capacity: nat
    /** Write cursor. */
    var head: nat
    /** Read cursor. */
    var tail: nat

    ghost predicate Valid()
      reads this
    {
      buffer.Length == capacity && 1 <= capacity && head < capacity && tail < capacity
    }

    /** The queued samples, oldest first. */
    ghost function Contents(): (s: seq<T>)
      requires Valid()
      reads this, buffer
      ensures |s| < capacity
    {
      Segment(buffer[..], tail, Occupancy(head, tail, capacity))
    }

    /** A buffer that can hold `cap` samples has `cap + 1` slots and starts empty. */
    constructor (cap: nat)
      ensures Valid() && fresh(buffer)
      ensures capacity == cap + 1 && head == 0 && tail == 0
      ensures Contents() == []
    {
      buffer := new T[cap + 1];
      capacity := cap + 1;
      head, tail := 0, 0;
    }

    /** Number of queued samples: `(head - tail) mod capacity`, never more than `capacity - 1`. */
    function Available(): (r: nat)
      requires Valid()
      reads this
      ensures r == (head - tail) % capacity
      ensures r <= capacity - 1
      ensures r == 0 <==> head == tail
      ensures r == |Contents()|
    {
      Occupancy(head, tail, capacity)
    }

    /** Appends the leading samples of `data` that fit and drops the rest; the read cursor
        does not move. */
    method Write(data: seq<T>) returns (written: nat)
      requires Valid()
      modifies this`head, buffer
      ensures Valid() && tail == old(tail)
      ensures written == Min(|data|, capacity - 1 - |old(Contents())|)
      ensures Contents() == old(Contents()) + data[..written]
    {
      written := 0;
      var h: nat := head;
      var t: nat := tail;
      var i := 0;
      while i < |data|
        invariant Valid() && t == tail && h < capacity
        invariant 0 <= i <= |data| && written == i
        invariant Occupancy(h, t, capacity) == |old(Contents())| + i
        invariant Segment(buffer[..], t, Occupancy(h, t, capacity)) == old(Contents()) + data[..i]
      {
        var next := (h + 1) % capacity;
        if next == t {
          NextSlot(h, capacity);
          break;
        }
        NextSlot(h, capacity);
        SegmentPush(buffer[..], h, t, data[i]);
        buffer[h] := data[i];
        h := next;
        written := written + 1;
        i := i + 1;
      }
      head := h;
    }

    /** Moves up to `count` of the oldest samples into `out[..count]`, in order; the write
        cursor and the stored samples do not change. */
    method Read(out: array<T>, count: nat) returns (n: nat)
      requires Valid() && count <= out.Length && out != buffer
      modifies this`tail, out
      ensures Valid() && head == old(head)
      ensures n == Min(count, |old(Contents())|)
      ensures out[..n] == old(Contents())[..n]
      ensures out[n..] == old(out[n..])
      ensures Contents() == old(Contents())[n..]
    {
      ghost var queued := Contents();
      n := 0;
      var t: nat := tail;
      var h: nat := head;
      while n < count && t != h
        invariant t < capacity && h == head
        invariant 0 <= n <= count
        invariant n <= |queued| && Occupancy(h, t, capacity) == |queued| - n
        invariant Segment(buffer[..], t, Occupancy(h, t, capacity)) == queued[n..]
        invariant forall k :: 0 <= k < n ==> out[k] == queued[k]
        invariant forall k :: n <= k < out.Length ==> out[k] == old(out[k])
      {
        SegmentAdvance(buffer[..], h, t, queued, n);
        out[n] := buffer[t];
        n := n + 1;
        t := (t + 1) % capacity;
      }
      tail := t;
      assert out[..n] == queued[..n];
      assert out[n..] == old(out[n..]);
    }

    /** Discards everything queued by moving the read cursor onto the write cursor. */
    method Clear()
      requires Valid()
      modifies this`tail
      ensures Valid() && head == old(head)
      ensures Contents() == [] && Available() == 0
    {
      tail := head;
    }
  }

  /** FIFO order: on an empty buffer, a write of at most the capacity followed by a read of
      the same count returns exactly the written samples and leaves the buffer empty. */
  method WriteThenRead<T(0)>(rb: RingBuffer<T>, data: seq<T>, out: array<T>)
    requires rb.Valid() && out != rb.buffer && |data| <= out.Length
    requires rb.Available() == 0 && |data| <= rb.capacity - 1
    modifies rb, rb.buffer, out
    ensures rb.Valid() && rb.Available() == 0
    ensures out[..|data|] == data
  {
    var w := rb.Write(data);
    assert w == |data| && data[..w] == data;
    var n := rb.Read(out, |data|);
  }

  /** A capacity-4 buffer keeps the first four of six samples and gives them back in order;
      a capacity-8 buffer holds one sample after three are written and two read. */
  method Scenarios()
  {
    var rb := new RingBuffer<real>(4);
    var w := rb.Write([1.0, 2.0, 3.0, 4.0, 5.0, 6.0]);
    assert w == 4;
    var out := new real[4];
    var n := rb.Read(out, 4);
    assert out[..] == out[..n];
    assert n == 4 && out[..] == [1.0, 2.0, 3.0, 4.0];

    var rb2 := new RingBuffer<real>(8);
    assert rb2.Available() == 0;
    w := rb2.Write([1.0, 2.0, 3.0]);
    assert rb2.Available() == 3;
    var out2 := new real[2];
    n := rb2.Read(out2, 2);
    assert rb2.Available() == 1;
    rb2.Clear();
    assert rb2.Available() == 0;
  }
}
