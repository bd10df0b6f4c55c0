/** The circular queue of bytes.  Head and tail are free-running counters of
    32 bits; they wrap around, and only their remainders point into the
    buffer. */
module ByteQueue {
  import opened Arithmetic

  type Byte = n: nat | n < 256

  const MAX_SIZE: nat := 0x4000_0000

  /** n elements of a ring, from position 'tail' on. */
  ghost function Ring<T>(buf: seq<T>, tail: nat, n: nat): (r: seq<T>)
    requires |buf| > 0
    ensures |r| == n
  {
    seq(n, i requires 0 <= i < n => buf[Wrap(tail + i, |buf|)])
  }

  function Overwritten<T>(buf: seq<T>, at: nat, data: seq<T>): seq<T>
    requires at + |data| <= |buf|
  {
    buf[..at] + data + buf[at + |data|..]
  }

  /** Writing past the end of what is queued, in one piece, appends. */
  lemma RingAppend<T>(buf: seq<T>, tail: nat, n: nat, data: seq<T>)
    requires |buf| > 0 && n + |data| <= |buf| && Wrap(tail + n, |buf|) + |data| <= |buf|
    ensures var buf' := Overwritten(buf, Wrap(tail + n, |buf|), data);
            |buf'| == |buf| && Ring(buf', tail, n + |data|) == Ring(buf, tail, n) + data
  {
    hide Wrap;
    var h, size := Wrap(tail + n, |buf|), |buf|;
    var buf' := Overwritten(buf, h, data);
    var r, want := Ring(buf', tail, n + |data|), Ring(buf, tail, n) + data;
    forall i | 0 <= i < n + |data| ensures r[i] == want[i] {
      if i < n {
        RingBefore(tail, n, |data|, i, size);
        var p := Wrap(tail + i, size);
        assert buf'[p] == buf[p];
      } else {
        RingAfter(tail + n, i - n, size);
        assert Wrap(tail + i, size) == h + (i - n);
      }
    }
  }

  lemma RingDrop<T>(buf: seq<T>, tail: nat, n: nat, k: nat)
    requires PowerOfTwo(|buf|) && |buf| <= U32 && k <= n
    ensures Ring(buf, Wrap(tail + k, U32), n - k) == Ring(buf, tail, n)[k..]
  {
    hide Wrap, PowerOfTwo;
    var size := |buf|;
    var r, want := Ring(buf, Wrap(tail + k, U32), n - k), Ring(buf, tail, n)[k..];
    forall i | 0 <= i < n - k ensures r[i] == want[i] {
      RingWrap(tail + k, size);
      WrapAdd(Wrap(tail + k, U32), i, size);
      WrapAdd(tail + k, i, size);
      assert tail + (k + i) == tail + k + i;
    }
  }

  /** The contiguous part at the tail. */
  lemma RingChunk<T>(buf: seq<T>, tail: nat, n: nat, k: nat)
    requires |buf| > 0 && k <= n && Wrap(tail, |buf|) + k <= |buf|
    ensures Ring(buf, tail, n)[..k] == buf[Wrap(tail, |buf|)..Wrap(tail, |buf|) + k]
  {
    hide Wrap;
    var r, want := Ring(buf, tail, n)[..k], buf[Wrap(tail, |buf|)..Wrap(tail, |buf|) + k];
    forall i | 0 <= i < k ensures r[i] == want[i] {
      RingAfter(tail, i, |buf|);
    }
  }

  class ByteQ {
    const buffer: array<Byte>
    var head: nat
    var tail: nat

    /** Bytes in use. */
    function Used(): (n: nat)
      reads this
    {
      Wrap(head - tail, U32)
    }

    ghost predicate Valid()
      reads this, buffer
    {
      PowerOfTwo(buffer.Length) && buffer.Length <= MAX_SIZE && head < U32 && tail < U32 && Used() <= buffer.Length
    }

    /** The bytes queued, oldest first. */
    ghost function Contents(): (s: seq<Byte>)
      requires Valid()
      reads this, buffer
      ensures |s| == Used()
    {
      Ring(buffer[..], tail, Used())
    }

    /** byteq_init. */
    constructor (buffer: array<Byte>)
      requires PowerOfTwo(buffer.Length) && buffer.Length <= MAX_SIZE
      ensures Valid() && Contents() == [] && this.buffer == buffer && head == tail == 0
    {
      this.buffer := buffer;
      head, tail := 0, 0;
    }

    function Avail(): (n: nat)
      requires Valid()
      reads this, buffer
    {
      buffer.Length - Used()
    }

    /** Contiguous free bytes at the head. */
    function Headroom(): (n: nat)
      requires Valid()
      reads this, buffer
      ensures n <= Avail() && (Avail() > 0 ==> n > 0) && Wrap(head, buffer.Length) + n <= buffer.Length
    {
      var toEnd := buffer.Length - Wrap(head, buffer.Length);
      if Avail() < toEnd then Avail() else toEnd
    }

    /** Contiguous bytes in use at the tail. */
    function Tailroom(): (n: nat)
      requires Valid()
      reads this, buffer
      ensures n <= Used() && (Used() > 0 ==> n > 0) && Wrap(tail, buffer.Length) + n <= buffer.Length
    {
      var toEnd := buffer.Length - Wrap(tail, buffer.Length);
      if Used() < toEnd then Used() else toEnd
    }

    /** The head, seen from the tail. */
    lemma HeadPlace()
      requires Valid()
      ensures head == Wrap(tail + Used(), U32) && Wrap(head, buffer.Length) == Wrap(tail + Used(), buffer.Length)
    {
      hide PowerOfTwo, Wrap;
      WrapAdd(head - tail, tail, U32);
      WrapSmall(head, U32);
      RingWrap(tail + Used(), buffer.Length);
    }

    /** Copy into the free space at the head, without moving the head. */
    method CopyToHead(data: seq<Byte>)
      requires Valid() && |data| <= Headroom()
      modifies buffer
      ensures Valid() && buffer[..] == Overwritten(old(buffer[..]), Wrap(head, buffer.Length), data)
    {
      hide PowerOfTwo, Wrap;
      var at, i := Wrap(head, buffer.Length), 0;
      while i < |data|
        invariant i <= |data|
        invariant buffer[..] == Overwritten(old(buffer[..]), at, data[..i])
      {
        assert data[..i + 1] == data[..i] + [data[i]];
        buffer[at + i] := data[i];
        i := i + 1;
      }
      assert data[..i] == data;
    }

    /** byteq_advance_head; the bytes there become part of the queue. */
    method AdvanceHead(n: nat)
      requires Valid() && n <= Headroom()
      modifies this`head
      ensures Valid() && Used() == old(Used()) + n && Contents() == Ring(buffer[..], tail, old(Used()) + n)
    {
      hide PowerOfTwo, Wrap, Ring;
      HeadPlace();
      WrapAdd(tail + Used(), n, U32);
      Distance(tail, Used() + n);
      head := Wrap(head + n, U32);
    }

    /** byteq_advance_tail. */
    method AdvanceTail(n: nat)
      requires Valid() && n <= Tailroom()
      modifies this`tail
      ensures Valid() && tail == Wrap(old(tail) + n, U32) && Contents() == old(Contents())[n..]
    {
      hide PowerOfTwo, Wrap, Ring;
      RingDrop(buffer[..], tail, Used(), n);
      TailMoved(head, tail, n);
      tail := Wrap(tail + n, U32);
    }

    /** byteq_putn: in at most two pieces. */
    method PutN(p: seq<Byte>)
      requires Valid() && |p| <= Avail()
      modifies this`head, buffer
      ensures Valid() && tail == old(tail) && Contents() == old(Contents()) + p
    {
      hide PowerOfTwo, Ring, Wrap;
      var i := 0;
      while i < |p|
        invariant i <= |p| && Valid() && tail == old(tail) && |p| - i <= Avail()
        invariant Contents() == old(Contents()) + p[..i]
      {
        var chunk := if |p| - i < Headroom() then |p| - i else Headroom();
        PutChunk(p[i..i + chunk]);
        assert p[..i] + p[i..i + chunk] == p[..i + chunk];
        i := i + chunk;
      }
      assert p[..i] == p;
    }

    method PutChunk(data: seq<Byte>)
      requires Valid() && |data| <= Headroom()
      modifies this`head, buffer
      ensures Valid() && tail == old(tail) && Contents() == old(Contents()) + data
    {
      hide PowerOfTwo, Ring, Wrap;
      HeadPlace();
      RingAppend(buffer[..], tail, Used(), data);
      CopyToHead(data);
      AdvanceHead(|data|);
    }

    /** byteq_get. */
    method Get() returns (c: Byte)
      requires Valid() && Used() > 0
      modifies this`tail
      ensures Valid() && [c] + Contents() == old(Contents())
    {
      hide PowerOfTwo, Wrap;
      c := buffer[Wrap(tail, buffer.Length)];
      assert c == Contents()[0];
      AdvanceTail(1);
    }
  }

  lemma TailMoved(head: nat, tail: nat, n: nat)
    requires n <= Wrap(head - tail, U32)
    ensures Wrap(head - Wrap(tail + n, U32), U32) == Wrap(head - tail, U32) - n
  {
    var used := Wrap(head - tail, U32);
    ModAddMultiple(head - tail - n, U32, (tail + n) / U32);
    assert Wrap(head - Wrap(tail + n, U32), U32) == Wrap(head - tail - n, U32);
    WrapAdd(head - tail, 0 - n, U32);
    WrapSmall(used - n, U32);
  }
}
