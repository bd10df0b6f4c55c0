/** The stack of edges that a removal from a prefix trie keeps on its way
    down: how many entries it takes, and when they are more than there is
    room for. */
module TrieStack {
  import opened Words
  import opened PrefixTrie

  /** The widest field that can be tracked is 128 bits wide, and so many
      entries the stack has. */
  const WIDEST: nat := 4
  const ROOM: nat := 128

  /** One entry for the pointer to the trie and one for every node passed. */
  function Entries(t: Trie, pr: seq<Word>, ofs: nat, mlen: nat): (n: nat)
    requires ofs < mlen <= 32 * |pr|
    ensures n > 0
    decreases t
  {
    if t.Nil? then 1
    else
      var eq := TriePrefixEqualBits(t, pr, ofs, mlen);
      if eq < t.nbits || ofs + eq == mlen then 1
      else 1 + Entries(Edge(t, Bits(pr)[ofs + eq]), pr, ofs + eq, mlen)
  }

  /** The first 'n' nodes along 'v' hold one bit each. */
  predicate Steps(t: Trie, v: seq<bool>, n: nat)
    decreases t
  {
    n == 0 || (t.Node? && t.nbits == 1 && |v| > 1 && Steps(Edge(t, v[1]), v[1..], n - 1))
  }

  /** A root without bits, and then a node for every bit of 'v' but the last. */
  predicate Comb(t: Trie, v: seq<bool>) {
    v != [] && t.Node? && t.nbits == 0 && Steps(Edge(t, v[0]), v, |v| - 1)
  }

  /** Below the root there is at most one entry for each bit left, and so many
      only if every node passed holds one. */
  lemma {:induction false} EntriesBelow(t: Trie, pr: seq<Word>, ofs: nat, mlen: nat)
    requires ofs < mlen <= 32 * |pr| && Ok(t, false, 32 * |pr| - ofs) && EdgeOk(t, Bits(pr)[ofs])
    ensures Entries(t, pr, ofs, mlen) <= mlen - ofs
    ensures Entries(t, pr, ofs, mlen) == mlen - ofs <==> Steps(t, Rest(pr, ofs, mlen), mlen - ofs - 1)
    decreases t
  {
    hide TriePrefixEqualBits, Bits, Rest, Ok;
    var v := Rest(pr, ofs, mlen);
    RestTail(pr, ofs, mlen, 0);
    if t.Node? {
      TriePrefixEqualBitsIsLcp(t, pr, ofs, mlen);
      var eq := TriePrefixEqualBits(t, pr, ofs, mlen);
      OneBitMatches(t, v);
      if eq == t.nbits && ofs + eq < mlen {
        RestTail(pr, ofs, mlen, eq);
        EdgeIsOk(t, false, 32 * |pr| - ofs, v[eq]);
        EntriesBelow(Edge(t, v[eq]), pr, ofs + eq, mlen);
      }
    }
  }

  lemma OneBitMatches(t: Trie, v: seq<bool>)
    requires t.Node? && v != [] && EdgeOk(t, v[0])
    ensures t.nbits == 1 ==> Lcp(NodeBits(t), v) == 1
  {
    if t.nbits == 1 {
      assert v[..1] == NodeBits(t);
      LcpUnique(NodeBits(t), v, 1);
    }
  }

  /** The stack is too small for the removal exactly when the whole of a
      widest prefix is removed from a trie that has a root without bits and,
      along the prefix, a node for every bit. */
  lemma EntriesExact(t: Trie, pr: seq<Word>, mlen: nat)
    requires 0 < mlen <= 32 * |pr| && |pr| <= WIDEST && Ok(t, true, 32 * |pr|)
    ensures Entries(t, pr, 0, mlen) > ROOM <==> mlen == ROOM && Comb(t, Rest(pr, 0, mlen))
    ensures Entries(t, pr, 0, mlen) <= ROOM + 1
  {
    hide TriePrefixEqualBits, Bits, Rest, Ok, Steps, Entries;
    var v := Rest(pr, 0, mlen);
    RestTail(pr, 0, mlen, 0);
    EntriesUnfold(t, pr, 0, mlen);
    if t.Node? {
      TriePrefixEqualBitsIsLcp(t, pr, 0, mlen);
      var n := t.nbits;
      if TriePrefixEqualBits(t, pr, 0, mlen) == n < mlen {
        RestTail(pr, 0, mlen, n);
        EdgeIsOk(t, true, 32 * |pr|, v[n]);
        EntriesBelow(Edge(t, v[n]), pr, n, mlen);
      }
    }
  }

  lemma EntriesUnfold(t: Trie, pr: seq<Word>, ofs: nat, mlen: nat)
    requires ofs < mlen <= 32 * |pr|
    ensures t.Nil? ==> Entries(t, pr, ofs, mlen) == 1
    ensures t.Node? ==>
      var eq := TriePrefixEqualBits(t, pr, ofs, mlen);
      && (eq < t.nbits || ofs + eq == mlen ==> Entries(t, pr, ofs, mlen) == 1)
      && (eq == t.nbits && ofs + eq < mlen ==>
            Entries(t, pr, ofs, mlen) == 1 + Entries(Edge(t, Bits(pr)[ofs + eq]), pr, ofs + eq, mlen))
  {
    hide TriePrefixEqualBits, Bits;
  }

  // ------------------------------------------------ contents that make one

  /** Prefixes of every length but the last, and one that starts with the other
      bit, make such a trie. */
  lemma CombFrom(t: Trie, room: nat, v: seq<bool>, other: seq<bool>)
    requires Ok(t, true, room) && v != [] && other != [] && other[0] != v[0] && Count(t, other) > 0
    requires |v| > 1 && forall k :: 0 < k < |v| ==> Count(t, v[..k]) > 0
    ensures Comb(t, v)
  {
    hide Ok, Steps;
    assert Count(t, v[..1]) > 0;
    CountStarts(t, other);
    CountStarts(t, v[..1]);
    EdgeIsOk(t, true, room, v[0]);
    forall k | 0 < k < |v| ensures Count(Edge(t, v[0]), v[..k]) > 0 {
      assert v[..k][0] == v[0] && v[..k][0..] == v[..k];
      assert Count(t, v[..k]) > 0;
    }
    StepsFrom(Edge(t, v[0]), room - t.nbits, v, |v| - 1);
  }

  lemma CountStarts(t: Trie, q: seq<bool>)
    requires Count(t, q) > 0
    ensures t.Node? && (t.nbits > 0 ==> q != [] && q[0] == t.prefix[0])
  {
    if t.nbits > 0 {
      assert q[..t.nbits][0] == NodeBits(t)[0];
    }
  }

  lemma {:induction false} StepsFrom(t: Trie, room: nat, v: seq<bool>, n: nat)
    requires Ok(t, false, room) && n < |v| && (t.Node? && n > 0 ==> EdgeOk(t, v[0]))
    requires forall k :: 0 < k <= n ==> Count(t, v[..k]) > 0
    ensures Steps(t, v, n)
    decreases t
  {
    hide Ok;
    if n > 0 {
      assert Count(t, v[..1]) > 0;
      EdgeIsOk(t, false, room, v[1]);
      assert t.nbits == 1;
      var rest, c := v[1..], Edge(t, v[1]);
      forall k | 0 < k <= n - 1 ensures Count(c, rest[..k]) > 0 {
        assert Count(t, v[..k + 1]) > 0;
        assert v[..k + 1][1..] == rest[..k] && v[..k + 1][1] == v[1];
      }
      StepsFrom(c, room - 1, rest, n - 1);
    }
  }

  // ------------------------------------------------ a run that does

  function Zeros(): seq<Word> {
    [Zero(), Zero(), Zero(), Zero()]
  }

  function OtherHalf(): seq<Word> {
    [Ones(), Zero(), Zero(), Zero()]
  }

  /** A prefix of one bit, then prefixes of lengths 1 to n of the other. */
  function Growing(n: nat): (ops: seq<Op>)
    requires n <= ROOM
    ensures forall i :: 0 <= i < |ops| ==> OpOk(ops[i], WIDEST)
  {
    if n == 0 then [Put(OtherHalf(), 1)] else Growing(n - 1) + [Put(Zeros(), n)]
  }

  lemma OneMore(ops: seq<Op>, words: nat, op: Op)
    requires op.Put? && OpOk(op, words) && forall i :: 0 <= i < |ops| ==> OpOk(ops[i], words)
    ensures forall i :: 0 <= i < |ops + [op]| ==> OpOk((ops + [op])[i], words)
    ensures Prefixes(ops + [op], words) == Prefixes(ops, words) + multiset{Rest(op.pr, 0, op.len)}
  {
    hide Rest;
    assert (ops + [op])[..|ops|] == ops;
  }

  lemma {:induction false} GrowingHolds(n: nat)
    requires n <= ROOM
    ensures forall k :: 0 < k <= n ==> Prefixes(Growing(n), WIDEST)[Rest(Zeros(), 0, k)] > 0
    ensures Prefixes(Growing(n), WIDEST)[Rest(OtherHalf(), 0, 1)] > 0
  {
    hide Rest, Prefixes;
    if n == 0 {
      OneMore([], WIDEST, Put(OtherHalf(), 1));
      assert [] + [Put(OtherHalf(), 1)] == Growing(0);
    } else {
      GrowingHolds(n - 1);
      OneMore(Growing(n - 1), WIDEST, Put(Zeros(), n));
    }
  }

  /** After these insertions the removal of the last prefix takes one entry
      more than there is room for. */
  lemma StackTooSmall()
    ensures Entries(RunOps(Growing(ROOM), WIDEST), Zeros(), 0, ROOM) == ROOM + 1
    ensures Remove(RunOps(Growing(ROOM), WIDEST), Zeros(), 0, ROOM).found
  {
    hide RunOps, Prefixes, Growing, Ok, Count, Entries, Remove, Comb, OneLess;
    GrowingHolds(ROOM);
    var ops := Growing(ROOM);
    var t, v := RunOps(ops, WIDEST), Rest(Zeros(), 0, ROOM);
    RunOpsHolds(ops, WIDEST);
    forall k | 0 < k <= ROOM ensures Count(t, v[..k]) > 0 {
      assert Rest(Zeros(), 0, k) == v[..k];
    }
    assert v[..ROOM] == v;
    FirstBits();
    CombFrom(t, 32 * WIDEST, v, Rest(OtherHalf(), 0, 1));
    EntriesExact(t, Zeros(), ROOM);
    RemoveSpec(t, true, Zeros(), 0, ROOM);
  }

  lemma FirstBits()
    ensures !Rest(Zeros(), 0, ROOM)[0] && Rest(OtherHalf(), 0, 1)[0]
  {
    BitsAt(Zeros(), 0, 0);
    BitsAt(OtherHalf(), 0, 0);
  }
}
