/** The byte ring that holds received data (cbuf.c). */
module CircularBuffers {
  import opened Checksum

  /** Where a cursor can stand; a ring without slots has its cursors at the start. */
  predicate Cursor(capacity: nat, x: nat) {
    x < capacity || x == capacity == 0
  }

  /** The slot `i` places after slot `from`, in a ring of `capacity` slots. */
  function Slot(capacity: nat, from: nat, i: nat): nat
    requires Cursor(capacity, from) && i <= capacity
  {
    if from + i < capacity then from + i else from + i - capacity
  }

  /** The `n` bytes that start at slot `from`. */
  function Window(ring: seq<Byte>, from: nat, n: nat): (w: seq<Byte>)
    requires Cursor(|ring|, from) && n <= |ring|
    ensures |w| == n
  {
    seq(n, i requires 0 <= i < n => ring[Slot(|ring|, from, i)])
  }

  /** The cursors step through the slots in order, and come round after `capacity` steps. */
  lemma SlotStep(capacity: nat, from: nat, i: nat)
    requires from < capacity && i < capacity
    ensures Slot(capacity, from, i + 1) ==
            if Slot(capacity, from, i) + 1 == capacity then 0 else Slot(capacity, from, i) + 1
  {
  }

  /** Writing just behind a window that is not yet full extends it. */
  lemma WindowPush(ring: seq<Byte>, from: nat, n: nat, b: Byte)
    requires from < |ring| && n < |ring|
    ensures Window(ring[Slot(|ring|, from, n) := b], from, n + 1) == Window(ring, from, n) + [b]
  {
  }

  lemma WindowDrop(ring: seq<Byte>, from: nat, n: nat, k: nat)
    requires Cursor(|ring|, from) && k <= n <= |ring|
    requires Cursor(|ring|, Slot(|ring|, from, k))
    ensures Window(ring, Slot(|ring|, from, k), n - k) == Window(ring, from, n)[k..]
  {
  }

  class CircularBuffer {
    const buffer: array<Byte>
    var head: nat
    var tail: nat
    var freeSpace: nat

    ghost predicate Valid()
      reads this, buffer
    {
      && Cursor(buffer.Length, head) && Cursor(buffer.Length, tail) && freeSpace <= buffer.Length
      && head == Slot(buffer.Length, tail, buffer.Length - freeSpace)
    }

    /** The bytes pushed and not yet popped, oldest first. */
    ghost function Contents(): (c: seq<Byte>)
      requires Valid()
      reads this, buffer
      ensures |c| == buffer.Length - freeSpace
    {
      Window(buffer[..], tail, buffer.Length - freeSpace)
    }

    /** circular_buf_init. */
    constructor (capacity: nat)
      ensures Valid() && fresh(buffer)
      ensures buffer.Length == capacity && Contents() == []
    {
      buffer := new Byte[capacity];
      head, tail, freeSpace := 0, 0, capacity;
    }

    /** circular_buf_cur_usage. */
    function Usage(): (n: nat)
      requires Valid()
      reads this, buffer
      ensures n == |Contents()|
    {
      buffer.Length - freeSpace
    }

    /** circular_buf_push: appends `data` when all of it fits, and otherwise nothing. */
    method Push(data: seq<Byte>)
      requires Valid()
      modifies this`head, this`freeSpace, buffer
      ensures Valid()
      ensures Contents() == if |data| <= old(freeSpace) then old(Contents()) + data else old(Contents())
    {
      if |data| > freeSpace {
        return;
      }
      ghost var used := buffer.Length - freeSpace;
      for i := 0 to |data|
        invariant freeSpace == old(freeSpace)
        invariant Cursor(buffer.Length, head) && head == Slot(buffer.Length, tail, used + i)
        invariant Window(buffer[..], tail, used + i) == old(Contents()) + data[..i]
      {
        WindowPush(buffer[..], tail, used + i, data[i]);
        SlotStep(buffer.Length, tail, used + i);
        ghost var was := buffer[..];
        buffer[head] := data[i];
        assert buffer[..] == was[Slot(buffer.Length, tail, used + i) := data[i]];
        head := head + 1;
        if head == buffer.Length {
          head := 0;
        }
        assert data[..i + 1] == data[..i] + [data[i]];
      }
      freeSpace := freeSpace - |data|;
      assert data[..|data|] == data;
    }

    /** circular_buf_pop: moves the `len` oldest bytes to `dst` when there are that many, and
        otherwise does nothing. */
    method Pop(dst: array<Byte>, at: nat, len: nat)
      requires Valid() && at + len <= dst.Length && dst != buffer
      modifies this`tail, this`freeSpace, dst
      ensures Valid()
      ensures if len <= old(|Contents()|)
              then && Contents() == old(Contents())[len..]
                   && dst[..] == old(dst[..at]) + old(Contents())[..len] + old(dst[at + len..])
              else Contents() == old(Contents()) && dst[..] == old(dst[..])
    {
      if len > buffer.Length - freeSpace {
        return;
      }
      ghost var from, used := tail, buffer.Length - freeSpace;
      for i := 0 to len
        invariant freeSpace == old(freeSpace)
        invariant Cursor(buffer.Length, tail) && tail == Slot(buffer.Length, from, i)
        invariant forall j :: 0 <= j < i ==> dst[at + j] == old(Contents())[j]
        invariant forall j :: 0 <= j < dst.Length && !(at <= j < at + i) ==> dst[j] == old(dst[j])
        invariant buffer[..] == old(buffer[..])
      {
        dst[at + i] := buffer[tail];
        SlotStep(buffer.Length, from, i);
        tail := tail + 1;
        if tail == buffer.Length {
          tail := 0;
        }
      }
      freeSpace := freeSpace + len;
      WindowDrop(buffer[..], from, used, len);
    }
  }
}
