/** Appending to a file through asynchronous writes: the data wait in a byte
    queue, described chunk by chunk by a ring of control blocks. */
module AsyncAppend {
  import opened Arithmetic
  import opened ByteQueue

  const BUFFER_SIZE: nat := 65536
  const MAX_CBS: nat := 256

  /** A control block: where in the buffer its bytes are, and how many. */
  datatype Aiocb = Aiocb(offset: nat, nbytes: nat)

  /** The blocks describe, one after the other and without a gap, the 'used'
      bytes from 'pos' on; no block runs over the end of the buffer. */
  ghost predicate Tiles(cbs: seq<Aiocb>, pos: nat, used: nat, size: nat)
    requires size > 0
  {
    if cbs == [] then used == 0
    else
      && cbs[0].offset == pos && 0 < cbs[0].nbytes <= used && pos + cbs[0].nbytes <= size
      && Tiles(cbs[1..], Wrap(pos + cbs[0].nbytes, size), used - cbs[0].nbytes, size)
  }

  lemma {:induction false} TilesAppend(cbs: seq<Aiocb>, pos: nat, used: nat, size: nat, n: nat)
    requires size > 0 && pos < size && Tiles(cbs, pos, used, size) && n > 0 && Wrap(pos + used, size) + n <= size
    ensures Tiles(cbs + [Aiocb(Wrap(pos + used, size), n)], pos, used + n, size)
  {
    hide Wrap;
    var cb := Aiocb(Wrap(pos + used, size), n);
    var all := cbs + [cb];
    if cbs == [] {
      WrapSmall(pos, size);
      assert all[1..] == [];
    } else {
      var k := cbs[0].nbytes;
      WrapAdd(pos + k, used - k, size);
      assert Wrap(Wrap(pos + k, size) + (used - k), size) == Wrap(pos + used, size);
      TilesAppend(cbs[1..], Wrap(pos + k, size), used - k, size, n);
      assert all[1..] == cbs[1..] + [cb];
    }
  }

  lemma TilesEmpty(cbs: seq<Aiocb>, pos: nat, used: nat, size: nat)
    requires size > 0 && Tiles(cbs, pos, used, size)
    ensures cbs == [] <==> used == 0
  {
  }

  lemma Sizes()
    ensures PowerOfTwo(BUFFER_SIZE) && PowerOfTwo(MAX_CBS)
  {
    hide PowerOfTwo, Exp2;
    U32Power();
    Exp2Power(16);
    Exp2Power(8);
    Exp2Four();
    Exp2Add(4, 4);
  }

  /** What the operating system has been given, and what of it has been
      written: all but what is still in the buffer. */
  class Appender {
    const q: ByteQ
    const aiocbs: array<Aiocb>
    var aiocbHead: nat
    var aiocbTail: nat
    /** What the system will answer: whether a write is still in progress, and
        whether it refuses one; at the end of the list, neither. */
    var inProgress: seq<bool>
    var refused: seq<bool>
    ghost var handed: seq<Byte>
    ghost var completed: seq<Byte>

    function Count(): nat
      reads this
    {
      Wrap(aiocbHead - aiocbTail, U32)
    }

    ghost predicate CbsOk()
      reads this, aiocbs
    {
      aiocbs.Length == MAX_CBS && aiocbHead < U32 && aiocbTail < U32 && Count() <= MAX_CBS
    }

    ghost function Pending(): seq<Aiocb>
      requires CbsOk()
      reads this, aiocbs
    {
      Ring(aiocbs[..], aiocbTail, Count())
    }

    ghost predicate Valid()
      reads this, q, q.buffer, aiocbs
    {
      && q.Valid() && q.buffer.Length == BUFFER_SIZE && CbsOk()
      && Tiles(Pending(), Wrap(q.tail, BUFFER_SIZE), q.Used(), BUFFER_SIZE)
      && handed == completed + q.Contents()
    }

    /** async_append_create. */
    constructor (inProgress: seq<bool>, refused: seq<bool>)
      ensures Valid() && handed == [] && fresh(q) && fresh(q.buffer) && fresh(aiocbs)
    {
      Sizes();
      var buffer := new Byte[BUFFER_SIZE];
      q := new ByteQ(buffer);
      aiocbs := new Aiocb[MAX_CBS](i => Aiocb(0, 0));
      aiocbHead, aiocbTail := 0, 0;
      this.inProgress, this.refused := inProgress, refused;
      handed, completed := [], [];
    }

    /** async_append_is_full. */
    predicate Full()
      requires Valid()
      reads this, q, q.buffer, aiocbs
    {
      Count() >= MAX_CBS || q.Avail() == 0
    }

    /** aio_error: is the write still in progress? */
    method AioError() returns (busy: bool)
      modifies this`inProgress
      ensures busy ==> |inProgress| < |old(inProgress)|
      ensures |inProgress| <= |old(inProgress)|
    {
      busy := false;
      if inProgress != [] {
        busy := inProgress[0];
        inProgress := inProgress[1..];
      }
    }

    /** aio_write: does the system take it? */
    method AioWrite() returns (taken: bool)
      modifies this`refused
    {
      taken := true;
      if refused != [] {
        taken := !refused[0];
        refused := refused[1..];
      }
    }

    /** The oldest write is done: its block and its bytes are given back.  The
        bytes written are those in the buffer now. */
    method Reap()
      requires Valid() && q.Used() > 0
      modifies this`aiocbTail, this`completed, q`tail
      ensures Valid() && Count() == old(Count()) - 1 && q.Used() < old(q.Used()) && handed == old(handed)
    {
      hide PowerOfTwo, Wrap, Ring;
      var cb := aiocbs[Wrap(aiocbTail, MAX_CBS)];
      OldestBlock();
      Sizes();
      RingWrap(q.tail + cb.nbytes, BUFFER_SIZE);
      WrapAdd(q.tail, cb.nbytes, BUFFER_SIZE);
      completed := completed + q.buffer[..][cb.offset..cb.offset + cb.nbytes];
      ReapBlock();
      q.AdvanceTail(cb.nbytes);
    }

    method ReapBlock()
      requires CbsOk() && Count() > 0
      modifies this`aiocbTail
      ensures CbsOk() && Pending() == old(Pending())[1..] && Count() == old(Count()) - 1
    {
      hide PowerOfTwo, Wrap, Ring;
      Sizes();
      RingDrop(aiocbs[..], aiocbTail, Count(), 1);
      TailMoved(aiocbHead, aiocbTail, 1);
      aiocbTail := Wrap(aiocbTail + 1, U32);
    }

    /** The oldest block lies at the tail of the queue, in one piece. */
    lemma OldestBlock()
      requires Valid() && q.Used() > 0
      ensures Count() > 0 && Pending()[0] == aiocbs[Wrap(aiocbTail, MAX_CBS)]
      ensures var cb := Pending()[0];
              && cb.nbytes <= q.Tailroom() && cb.offset + cb.nbytes <= BUFFER_SIZE && cb.offset == Wrap(q.tail, BUFFER_SIZE)
              && q.buffer[..][cb.offset..cb.offset + cb.nbytes] == q.Contents()[..cb.nbytes]
    {
      hide PowerOfTwo, Wrap;
      TilesEmpty(Pending(), Wrap(q.tail, BUFFER_SIZE), q.Used(), BUFFER_SIZE);
      var cb := Pending()[0];
      RingChunk(q.buffer[..], q.tail, q.Used(), cb.nbytes);
    }

    /** async_append_wait: at least one write is waited for, and what else is
        done by then is taken too. */
    method Wait()
      requires Valid()
      modifies this`aiocbTail, this`completed, this`inProgress, q`tail
      ensures Valid() && handed == old(handed)
      ensures old(q.Used()) > 0 ==> Count() < old(Count()) && q.Used() < old(q.Used())
      ensures old(q.Used()) == 0 ==> q.Used() == 0 && Count() == old(Count())
    {
      hide PowerOfTwo, Wrap, Ring, Tiles;
      var n := 0;
      while q.Used() > 0
        invariant Valid() && handed == old(handed) && Count() <= old(Count()) && q.Used() <= old(q.Used())
        invariant if n == 0 then Count() == old(Count()) && q.Used() == old(q.Used()) else Count() < old(Count()) && q.Used() < old(q.Used())
        decreases |inProgress| + q.Used()
      {
        var busy := AioError();
        if busy {
          if n > 0 {
            return;
          }
        } else {
          Reap();
          n := n + 1;
        }
      }
    }

    /** async_append_flush. */
    method Flush()
      requires Valid()
      modifies this`aiocbTail, this`completed, this`inProgress, q`tail
      ensures Valid() && handed == old(handed) == completed && q.Used() == 0
    {
      hide PowerOfTwo, Wrap, Ring, Tiles;
      while q.Used() > 0
        invariant Valid() && handed == old(handed)
      {
        Wait();
      }
      assert q.Contents() == [];
    }

    /** A new block for the bytes just put at the head of the queue. */
    method AddBlock(cb: Aiocb)
      requires CbsOk() && Count() < MAX_CBS
      modifies this`aiocbHead, aiocbs
      ensures CbsOk() && Pending() == old(Pending()) + [cb] && Count() == old(Count()) + 1
    {
      hide PowerOfTwo, Wrap, Ring;
      Sizes();
      HeadAt(aiocbHead, aiocbTail, MAX_CBS);
      RingAppend(aiocbs[..], aiocbTail, Count(), [cb]);
      var i := Wrap(aiocbHead, MAX_CBS);
      aiocbs[i] := cb;
      assert aiocbs[..] == Overwritten(old(aiocbs[..]), i, [cb]);
      WrapAdd(aiocbTail + Count(), 1, U32);
      Distance(aiocbTail, Count() + 1);
      aiocbHead := Wrap(aiocbHead + 1, U32);
    }

    /** Hand one chunk to the system; if it is refused, nothing is queued. */
    method Submit(chunk: seq<Byte>) returns (taken: bool)
      requires Valid() && !Full() && 0 < |chunk| <= q.Headroom()
      modifies this`aiocbHead, this`refused, this`handed, aiocbs, q`head, q.buffer
      ensures Valid() && completed == old(completed)
      ensures handed == if taken then old(handed) + chunk else old(handed)
    {
      hide PowerOfTwo, Wrap, Ring;
      Sizes();
      ghost var tail, used := q.tail, q.Used();
      q.HeadPlace();
      RingAppend(q.buffer[..], tail, used, chunk);
      RingKept(q.buffer[..], tail, used, chunk);
      var at := Wrap(q.head, BUFFER_SIZE);
      q.CopyToHead(chunk);
      taken := AioWrite();
      if taken {
        WrapAdd(tail, used, BUFFER_SIZE);
        TilesAppend(Pending(), Wrap(tail, BUFFER_SIZE), used, BUFFER_SIZE, |chunk|);
        AddBlock(Aiocb(at, |chunk|));
        q.AdvanceHead(|chunk|);
        handed := handed + chunk;
      }
    }

    /** One turn of async_append_write: as much of the data as fits in one
        piece. */
    method WriteChunk(data: seq<Byte>) returns (n: nat, taken: bool)
      requires Valid() && data != []
      modifies this`aiocbHead, this`aiocbTail, this`completed, this`inProgress, this`refused, this`handed
      modifies aiocbs, q`head, q`tail, q.buffer
      ensures Valid() && 0 < n <= |data|
      ensures handed == if taken then old(handed) + data[..n] else old(handed)
    {
      hide PowerOfTwo, Wrap, Ring, Tiles;
      MakeRoom();
      n := if |data| < q.Headroom() then |data| else q.Headroom();
      taken := Submit(data[..n]);
    }

    /** The fallback: wait for everything queued, then write in place. */
    method WriteDirectly(data: seq<Byte>)
      requires Valid()
      modifies this`aiocbTail, this`completed, this`inProgress, this`handed, q`tail
      ensures Valid() && handed == old(handed) + data
    {
      hide PowerOfTwo, Wrap, Ring, Tiles;
      Flush();
      handed, completed := handed + data, completed + data;
    }

    /** async_append_write: whatever the system takes or refuses, and however
        long its writes take, it is handed all of the data, after all data of
        earlier calls. */
    method Write(data: seq<Byte>)
      requires Valid()
      modifies this`aiocbHead, this`aiocbTail, this`completed, this`inProgress, this`refused, this`handed
      modifies aiocbs, q`head, q`tail, q.buffer
      ensures Valid() && handed == old(handed) + data
    {
      hide Appender.Valid;
      var i := 0;
      while i < |data|
        invariant i <= |data| && Valid() && handed == old(handed) + data[..i]
      {
        var n, taken := WriteChunk(data[i..]);
        if !taken {
          WriteDirectly(data[i..]);
          InParts(old(handed), data, i, |data| - i);
          return;
        }
        InParts(old(handed), data, i, n);
        i := i + n;
      }
      assert data[..i] == data;
    }

    method MakeRoom()
      requires Valid()
      modifies this`aiocbTail, this`completed, this`inProgress, q`tail
      ensures Valid() && handed == old(handed) && !Full()
    {
      hide PowerOfTwo, Wrap, Ring;
      while Full()
        invariant Valid() && handed == old(handed)
        decreases Count()
      {
        TilesEmpty(Pending(), Wrap(q.tail, BUFFER_SIZE), q.Used(), BUFFER_SIZE);
        Wait();
      }
    }
  }

  lemma InParts(a: seq<Byte>, data: seq<Byte>, i: nat, n: nat)
    requires i + n <= |data|
    ensures a + data[..i] + data[i..][..n] == a + data[..i + n]
    ensures i + n == |data| ==> data[i..][..n] == data[i..] && data[..i + n] == data
  {
    assert data[..i] + data[i..][..n] == data[..i + n];
  }

  lemma HeadAt(head: nat, tail: nat, size: nat)
    requires PowerOfTwo(size) && size <= U32 && head < U32
    ensures var n := Wrap(head - tail, U32); head == Wrap(tail + n, U32) && Wrap(head, size) == Wrap(tail + n, size)
  {
    hide PowerOfTwo, Wrap;
    WrapAdd(head - tail, tail, U32);
    WrapSmall(head, U32);
    RingWrap(tail + Wrap(head - tail, U32), size);
  }

  /** Writing into the free space leaves what is queued as it was. */
  lemma RingKept(buf: seq<Byte>, tail: nat, n: nat, data: seq<Byte>)
    requires |buf| > 0 && n + |data| <= |buf| && Wrap(tail + n, |buf|) + |data| <= |buf|
    ensures Ring(Overwritten(buf, Wrap(tail + n, |buf|), data), tail, n) == Ring(buf, tail, n)
  {
    hide Wrap;
    var buf' := Overwritten(buf, Wrap(tail + n, |buf|), data);
    RingAppend(buf, tail, n, data);
    assert Ring(buf', tail, n) == Ring(buf', tail, n + |data|)[..n];
  }
}
