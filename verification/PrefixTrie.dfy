/** The path-compressed prefix tries of the classifier.

    A node carries up to 32 bits of prefix packed in a word, the number of
    rules that end exactly there, and two edges selected by the next bit. */
module PrefixTrie {
  import opened Words

  const TRIE_PREFIX_BITS: nat := 32

  type BitCount = n: nat | n <= 32

  datatype Trie =
    | Nil
    | Node(prefix: Word, nbits: BitCount, nRules: nat, e0: Trie, e1: Trie)

  function Edge(t: Trie, b: bool): Trie
    requires t.Node?
  {
    if b then t.e1 else t.e0
  }

  function SetEdge(t: Trie, b: bool, c: Trie): Trie
    requires t.Node?
  {
    if b then t.(e1 := c) else t.(e0 := c)
  }

  predicate IsLeaf(t: Trie)
    requires t.Node?
  {
    t.e0.Nil? && t.e1.Nil?
  }

  function NodeBits(t: Trie): (s: seq<bool>)
    requires t.Node?
  {
    t.prefix[..t.nbits]
  }

  // ------------------------------------------------ reading bits

  function RawGetPrefix(pr: seq<Word>, ofs: nat, plen: nat): Word
    requires plen <= 32 && ofs < 32 * |pr| && ofs + plen <= 32 * |pr|
  {
    var k, o := ofs / 32, ofs % 32;
    if plen > 32 - o then Or(Shl(pr[k], o), Shr(pr[k + 1], 32 - o)) else Shl(pr[k], o)
  }

  function TrieGetPrefix(pr: seq<Word>, ofs: nat, plen: nat): Word
    requires ofs + plen <= 32 * |pr|
  {
    if plen == 0 then Zero()
    else
      var n := if plen > TRIE_PREFIX_BITS then TRIE_PREFIX_BITS else plen;
      And(RawGetPrefix(pr, ofs, n), HighMask(n))
  }

  function PrefixEqualBits(prefix: Word, nbits: nat, value: seq<Word>, ofs: nat): (n: nat)
    requires nbits <= 32 && ofs < 32 * |value| && ofs + nbits <= 32 * |value|
    ensures n <= nbits
  {
    LeadingZeros(Xor(prefix, RawGetPrefix(value, ofs, nbits)), nbits)
  }

  lemma RawGetPrefixBit(pr: seq<Word>, ofs: nat, plen: nat, i: nat)
    requires plen <= 32 && ofs < 32 * |pr| && ofs + plen <= 32 * |pr|
    requires i < plen
    ensures RawGetPrefix(pr, ofs, plen)[i] == Bits(pr)[ofs + i]
  {
    hide Shl, Shr, Bits;
    var k, o := ofs / 32, ofs % 32;
    ShlAt(pr[k], o, i);
    if plen > 32 - o {
      ShrAt(pr[k + 1], 32 - o, i);
    }
    if i < 32 - o {
      BitsAt(pr, k, o + i);
    } else {
      BitsAt(pr, k + 1, i - (32 - o));
    }
  }

  lemma RawGetPrefixBits(pr: seq<Word>, ofs: nat, plen: nat)
    requires plen <= 32 && ofs < 32 * |pr| && ofs + plen <= 32 * |pr|
    ensures RawGetPrefix(pr, ofs, plen)[..plen] == Bits(pr)[ofs..ofs + plen]
  {
    forall i | 0 <= i < plen
      ensures RawGetPrefix(pr, ofs, plen)[i] == Bits(pr)[ofs + i]
    {
      RawGetPrefixBit(pr, ofs, plen, i);
    }
  }

  lemma MaskedHigh(x: Word, n: nat)
    requires n <= 32
    ensures Clean(And(x, HighMask(n)), n) && And(x, HighMask(n))[..n] == x[..n]
  {
    forall i | 0 <= i < 32 ensures And(x, HighMask(n))[i] == (x[i] && i < n) {
      ShlAt(Ones(), 32 - n, i);
    }
  }

  lemma TrieGetPrefixBits(pr: seq<Word>, ofs: nat, plen: nat)
    requires ofs + plen <= 32 * |pr|
    ensures var n := if plen > 32 then 32 else plen;
            var w := TrieGetPrefix(pr, ofs, plen);
            Clean(w, n) && w[..n] == Bits(pr)[ofs..ofs + n]
  {
    hide RawGetPrefix, HighMask, And, Bits;
    if plen > 0 {
      var n := if plen > 32 then 32 else plen;
      RawGetPrefixBits(pr, ofs, n);
      MaskedHigh(RawGetPrefix(pr, ofs, n), n);
    }
  }

  /** prefix_equal_bits counts the common leading bits. */
  lemma PrefixEqualBitsIsLcp(prefix: Word, nbits: nat, value: seq<Word>, ofs: nat)
    requires nbits <= 32 && ofs < 32 * |value| && ofs + nbits <= 32 * |value|
    ensures PrefixEqualBits(prefix, nbits, value, ofs)
         == Lcp(prefix[..nbits], Bits(value)[ofs..ofs + nbits])
  {
    var raw := RawGetPrefix(value, ofs, nbits);
    var n := LeadingZeros(Xor(prefix, raw), nbits);
    RawGetPrefixBits(value, ofs, nbits);
    forall i | 0 <= i < n ensures prefix[i] == raw[i] {
      assert !Xor(prefix, raw)[i];
    }
    assert prefix[..n] == raw[..n];
    assert raw[..n] == raw[..nbits][..n];
    if n < nbits {
      assert Xor(prefix, raw)[n];
    }
    LcpUnique(prefix[..nbits], raw[..nbits], n);
  }

  // ------------------------------------------------ contents

  /** How many rules are stored under exactly the bit string 'q'. */
  function Count(t: Trie, q: seq<bool>): nat
    decreases t
  {
    if t.Nil? || |q| < t.nbits || NodeBits(t) != q[..t.nbits] then 0
    else if |q| == t.nbits then t.nRules
    else Count(Edge(t, q[t.nbits]), q[t.nbits..])
  }

  predicate EdgeOk(c: Trie, b: bool) {
    c.Node? ==> 1 <= c.nbits && c.prefix[0] == b
  }

  /** Shape of a trie over at most 'room' more bits: prefixes are clean and
      short enough, an edge leads to a node starting with that bit, no leaf
      lacks rules, and only a root with two children may be empty. */
  predicate Ok(t: Trie, root: bool, room: nat)
    decreases t
  {
    t.Node? ==>
      && t.nbits <= room && Clean(t.prefix, t.nbits)
      && (t.nbits == 0 ==> root && t.nRules == 0 && t.e0.Node? && t.e1.Node?)
      && (IsLeaf(t) ==> t.nRules > 0)
      && EdgeOk(t.e0, false) && EdgeOk(t.e1, true)
      && Ok(t.e0, false, room - t.nbits) && Ok(t.e1, false, room - t.nbits)
  }

  // ------------------------------------------------ insertion

  function BranchCreate(pr: seq<Word>, ofs: nat, plen: nat, nRules: nat): (t: Trie)
    requires ofs + plen <= 32 * |pr|
    ensures t.Node?
    decreases plen
  {
    if plen <= TRIE_PREFIX_BITS then
      Node(TrieGetPrefix(pr, ofs, plen), plen, nRules, Nil, Nil)
    else
      var sub := BranchCreate(pr, ofs + TRIE_PREFIX_BITS, plen - TRIE_PREFIX_BITS, nRules);
      SetEdge(Node(TrieGetPrefix(pr, ofs, plen), TRIE_PREFIX_BITS, 0, Nil, Nil), sub.prefix[0], sub)
  }

  lemma {:induction false} BranchCreateSpec(pr: seq<Word>, ofs: nat, plen: nat, nRules: nat)
    requires ofs + plen <= 32 * |pr| && plen > 0 && nRules > 0
    ensures var t := BranchCreate(pr, ofs, plen, nRules);
            Ok(t, false, plen) && EdgeOk(t, Bits(pr)[ofs])
    decreases plen
  {
    hide TrieGetPrefix, RawGetPrefix, Bits;
    TrieGetPrefixBits(pr, ofs, plen);
    var t := BranchCreate(pr, ofs, plen, nRules);
    var n := if plen > 32 then 32 else plen;
    assert t.prefix[0] == t.prefix[..n][0];
    if plen > TRIE_PREFIX_BITS {
      BranchCreateSpec(pr, ofs + 32, plen - 32, nRules);
    }
  }

  lemma {:induction false} BranchCreateCount(pr: seq<Word>, ofs: nat, plen: nat, nRules: nat, q: seq<bool>)
    requires ofs + plen <= 32 * |pr| && plen > 0 && nRules > 0
    ensures Count(BranchCreate(pr, ofs, plen, nRules), q)
         == if q == Bits(pr)[ofs..ofs + plen] then nRules else 0
    decreases plen
  {
    hide TrieGetPrefix, Bits, Count, Ok;
    TrieGetPrefixBits(pr, ofs, plen);
    var s := Bits(pr)[ofs..ofs + plen];
    var t := BranchCreate(pr, ofs, plen, nRules);
    if plen > TRIE_PREFIX_BITS {
      BranchCreateSpec(pr, ofs + 32, plen - 32, nRules);
      var sub := BranchCreate(pr, ofs + 32, plen - 32, nRules);
      var head, tail := Bits(pr)[ofs..ofs + 32], Bits(pr)[ofs + 32..ofs + plen];
      assert s == head + tail;
      OneEdgeCount(t, sub, head, tail, q);
      if |q| > 32 {
        BranchCreateCount(pr, ofs + 32, plen - 32, nRules, q[32..]);
        assert q == q[..32] + q[32..];
      }
    } else {
      LeafCount(t, q);
    }
  }

  lemma LeafCount(t: Trie, q: seq<bool>)
    requires t.Node? && IsLeaf(t)
    ensures Count(t, q) == if q == NodeBits(t) then t.nRules else 0
  {
    if |q| == t.nbits { assert q[..t.nbits] == q; }
  }

  lemma OneEdgeCount(t: Trie, sub: Trie, head: seq<bool>, tail: seq<bool>, q: seq<bool>)
    requires t.Node? && t.nbits == 32 && t.nRules == 0 && NodeBits(t) == head
    requires sub.Node? && sub.nbits > 0 && |tail| > 0 && sub.prefix[0] == tail[0]
    requires Edge(t, tail[0]) == sub && Edge(t, !tail[0]).Nil?
    ensures Count(t, q) == if |q| > 32 && q[..32] == head then Count(sub, q[32..]) else 0
  {
    if |q| > 32 && q[32] != tail[0] {
      assert q[32..][0] != NodeBits(sub)[0];
      if |q[32..]| >= sub.nbits {
        assert q[32..][..sub.nbits][0] == q[32];
      }
    }
  }

  function Min(a: nat, b: nat): nat { if a < b then a else b }

  /** Bits [ofs, mlen) of the prefix being inserted or removed. */
  function Rest(pr: seq<Word>, ofs: nat, mlen: nat): (s: seq<bool>)
    requires ofs <= mlen <= 32 * |pr|
    ensures |s| == mlen - ofs
  {
    Bits(pr)[ofs..mlen]
  }

  function TriePrefixEqualBits(t: Trie, pr: seq<Word>, ofs: nat, plen: nat): (n: nat)
    requires t.Node? && ofs < plen <= 32 * |pr|
    ensures n <= t.nbits && n <= plen - ofs
  {
    PrefixEqualBits(t.prefix, Min(t.nbits, plen - ofs), pr, ofs)
  }

  lemma TriePrefixEqualBitsIsLcp(t: Trie, pr: seq<Word>, ofs: nat, plen: nat)
    requires t.Node? && ofs < plen <= 32 * |pr|
    ensures TriePrefixEqualBits(t, pr, ofs, plen) == Lcp(NodeBits(t), Rest(pr, ofs, plen))
  {
    hide Lcp, PrefixEqualBits, Bits;
    var m := Min(t.nbits, plen - ofs);
    PrefixEqualBitsIsLcp(t.prefix, m, pr, ofs);
    var a, b := t.prefix[..m], Bits(pr)[ofs..ofs + m];
    var n := Lcp(a, b);
    var s := Rest(pr, ofs, plen);
    assert NodeBits(t)[..n] == a[..n];
    assert s[..n] == b[..n];
    LcpUnique(NodeBits(t), s, n);
  }

  /** A node whose first 'n' prefix bits have moved to a new parent. */
  function Shortened(t: Trie, n: nat): Trie
    requires t.Node? && n <= t.nbits
  {
    t.(prefix := Shl(t.prefix, n), nbits := t.nbits - n)
  }

  /** The branch for what remains of a new prefix, if anything does. */
  function Fork(pr: seq<Word>, ofs: nat, mlen: nat): Trie
    requires ofs <= mlen <= 32 * |pr|
  {
    if ofs < mlen then BranchCreate(pr, ofs, mlen - ofs, 1) else Nil
  }

  /** Mismatch after 'eq' bits: a new parent takes those bits, and the new
      rule either ends there or gets a branch of its own. */
  function Split(t: Trie, pr: seq<Word>, ofs: nat, mlen: nat, eq: nat): Trie
    requires t.Node? && eq < t.nbits && ofs + eq <= mlen <= 32 * |pr|
  {
    var oldBranch := t.prefix[eq];
    var parent := BranchCreate(pr, ofs, eq, if ofs + eq == mlen then 1 else 0);
    SetEdge(SetEdge(parent, oldBranch, Shortened(t, eq)), !oldBranch, Fork(pr, ofs + eq, mlen))
  }

  function Insert(t: Trie, pr: seq<Word>, ofs: nat, mlen: nat): Trie
    requires ofs < mlen <= 32 * |pr|
    decreases t
  {
    if t.Nil? then BranchCreate(pr, ofs, mlen - ofs, 1)
    else
      var eq := TriePrefixEqualBits(t, pr, ofs, mlen);
      if eq < t.nbits then
        Split(t, pr, ofs, mlen, eq)
      else if ofs + eq == mlen then t.(nRules := t.nRules + 1)
      else
        var b := Bits(pr)[ofs + eq];
        SetEdge(t, b, Insert(Edge(t, b), pr, ofs + eq, mlen))
  }

  lemma ShortenedOk(t: Trie, n: nat, root: bool, room: nat)
    requires t.Node? && Ok(t, root, room) && n < t.nbits
    ensures Ok(Shortened(t, n), false, room - n) && EdgeOk(Shortened(t, n), t.prefix[n])
    ensures Shortened(t, n).Node? && NodeBits(Shortened(t, n)) == NodeBits(t)[n..]
  {
    var u := Shortened(t, n);
    forall i | 0 <= i < 32 ensures u.prefix[i] == (n + i < 32 && t.prefix[n + i]) {
      ShlAt(t.prefix, n, i);
    }
  }

  lemma ShortenedCount(t: Trie, n: nat, root: bool, room: nat, q: seq<bool>)
    requires t.Node? && Ok(t, root, room) && n < t.nbits
    requires n <= |q| && q[..n] == NodeBits(t)[..n]
    ensures Count(Shortened(t, n), q[n..]) == Count(t, q)
  {
    ShortenedOk(t, n, root, room);
    var r := q[n..];
    var m := t.nbits - n;
    assert NodeBits(t) == NodeBits(t)[..n] + NodeBits(t)[n..];
    if |q| >= t.nbits {
      assert q[..t.nbits] == q[..n] + r[..m];
      assert q[t.nbits..] == r[m..];
      if r[..m] == NodeBits(t)[n..] {
        assert q[..t.nbits] == NodeBits(t);
      } else {
        assert q[..t.nbits][n..] == r[..m];
        assert q[..t.nbits] != NodeBits(t);
      }
    }
  }

  lemma ForkOk(pr: seq<Word>, ofs: nat, mlen: nat)
    requires ofs <= mlen <= 32 * |pr|
    ensures Ok(Fork(pr, ofs, mlen), false, 32 * |pr| - ofs)
    ensures ofs < mlen ==> EdgeOk(Fork(pr, ofs, mlen), Rest(pr, ofs, mlen)[0])
  {
    hide BranchCreate, TrieGetPrefix, RawGetPrefix, Bits;
    if ofs < mlen {
      BranchCreateSpec(pr, ofs, mlen - ofs, 1);
      OkRoom(BranchCreate(pr, ofs, mlen - ofs, 1), false, mlen - ofs, 32 * |pr| - ofs);
    }
  }

  lemma SplitParts(t: Trie, root: bool, pr: seq<Word>, ofs: nat, mlen: nat, eq: nat)
    requires t.Node? && eq < t.nbits && ofs + eq <= mlen <= 32 * |pr|
    requires NodeBits(t)[..eq] == Rest(pr, ofs, mlen)[..eq]
    ensures var u := Split(t, pr, ofs, mlen, eq);
            && u.Node? && u.nbits == eq && u.nRules == (if ofs + eq == mlen then 1 else 0)
            && Clean(u.prefix, eq) && NodeBits(u) == NodeBits(t)[..eq]
            && Edge(u, t.prefix[eq]) == Shortened(t, eq)
            && Edge(u, !t.prefix[eq]) == Fork(pr, ofs + eq, mlen)
  {
    hide TrieGetPrefix, RawGetPrefix, Bits;
    TrieGetPrefixBits(pr, ofs, eq);
    assert Rest(pr, ofs, mlen)[..eq] == Bits(pr)[ofs..ofs + eq];
  }

  lemma SplitOk(t: Trie, root: bool, pr: seq<Word>, ofs: nat, mlen: nat, eq: nat)
    requires t.Node? && eq < t.nbits && ofs < mlen && ofs + eq <= mlen <= 32 * |pr|
    requires Ok(t, root, 32 * |pr| - ofs) && eq == Lcp(NodeBits(t), Rest(pr, ofs, mlen))
    requires eq == 0 ==> root
    ensures Ok(Split(t, pr, ofs, mlen, eq), root, 32 * |pr| - ofs)
  {
    hide Lcp, Split, Shortened, Fork, Bits, Rest, Ok;
    var u, b := Split(t, pr, ofs, mlen, eq), t.prefix[eq];
    SplitParts(t, root, pr, ofs, mlen, eq);
    OkBasics(t, root, 32 * |pr| - ofs);
    ShortenedOk(t, eq, root, 32 * |pr| - ofs);
    ForkOk(pr, ofs + eq, mlen);
    ForkNil(pr, ofs + eq, mlen);
    RestTail(pr, ofs, mlen, eq);
    assert Edge(u, !b).Node? ==> Rest(pr, ofs, mlen)[eq] != NodeBits(t)[eq];
    NodeOk(u, root, 32 * |pr| - ofs, b);
  }

  lemma OkBasics(t: Trie, root: bool, room: nat)
    requires t.Node? && Ok(t, root, room)
    ensures t.nbits <= room
  {
  }

  lemma NodeOk(u: Trie, root: bool, room: nat, b: bool)
    requires u.Node? && u.nbits <= room && Clean(u.prefix, u.nbits)
    requires u.nbits == 0 ==> root && u.nRules == 0 && u.e0.Node? && u.e1.Node?
    requires IsLeaf(u) ==> u.nRules > 0
    requires EdgeOk(Edge(u, b), b) && EdgeOk(Edge(u, !b), !b)
    requires Ok(Edge(u, b), false, room - u.nbits) && Ok(Edge(u, !b), false, room - u.nbits)
    ensures Ok(u, root, room)
  {
  }

  lemma ForkNil(pr: seq<Word>, ofs: nat, mlen: nat)
    requires ofs <= mlen <= 32 * |pr|
    ensures Fork(pr, ofs, mlen).Nil? <==> ofs == mlen
  {
  }

  lemma RestTail(pr: seq<Word>, ofs: nat, mlen: nat, n: nat)
    requires ofs + n <= mlen <= 32 * |pr|
    ensures Rest(pr, ofs, mlen)[n..] == Rest(pr, ofs + n, mlen)
    ensures ofs + n < mlen ==> Rest(pr, ofs, mlen)[n] == Rest(pr, ofs + n, mlen)[0] == Bits(pr)[ofs + n]
  {
  }

  lemma {:induction false} OkRoom(t: Trie, root: bool, room: nat, more: nat)
    requires Ok(t, root, room) && room <= more
    ensures Ok(t, root, more)
    decreases t
  {
    if t.Node? {
      OkRoom(t.e0, false, room - t.nbits, more - t.nbits);
      OkRoom(t.e1, false, room - t.nbits, more - t.nbits);
    }
  }

  lemma SplitCount(t: Trie, root: bool, pr: seq<Word>, ofs: nat, mlen: nat, eq: nat, q: seq<bool>)
    requires t.Node? && eq < t.nbits && ofs < mlen && ofs + eq <= mlen <= 32 * |pr|
    requires Ok(t, root, 32 * |pr| - ofs) && eq == Lcp(NodeBits(t), Rest(pr, ofs, mlen))
    ensures Count(Split(t, pr, ofs, mlen, eq), q)
         == Count(t, q) + if q == Rest(pr, ofs, mlen) then 1 else 0
  {
    hide Lcp, Split, Shortened, Fork, Bits, Rest, Ok, Clean;
    var s := Rest(pr, ofs, mlen);
    var ob := t.prefix[eq];
    SplitParts(t, root, pr, ofs, mlen, eq);
    assert NodeBits(t)[eq] == ob && (eq < |s| ==> s[eq] != ob);
    ShortenedCountIf(t, eq, root, 32 * |pr| - ofs, q);
    ForkCount(pr, ofs + eq, mlen, if eq <= |q| then q[eq..] else q);
    RestTail(pr, ofs, mlen, eq);
    SplitCountAt(t, Split(t, pr, ofs, mlen, eq), s, eq, q, Shortened(t, eq), Fork(pr, ofs + eq, mlen));
  }

  lemma ShortenedCountIf(t: Trie, n: nat, root: bool, room: nat, q: seq<bool>)
    requires t.Node? && Ok(t, root, room) && n < t.nbits
    ensures n <= |q| && q[..n] == NodeBits(t)[..n] ==> Count(Shortened(t, n), q[n..]) == Count(t, q)
  {
    hide Ok, Count, Shortened;
    if n <= |q| && q[..n] == NodeBits(t)[..n] {
      ShortenedCount(t, n, root, room, q);
    }
  }

  lemma SplitCountAt(t: Trie, u: Trie, s: seq<bool>, eq: nat, q: seq<bool>, short: Trie, fork: Trie)
    requires t.Node? && eq < t.nbits && eq <= |s| && NodeBits(t)[..eq] == s[..eq] && (eq < |s| ==> s[eq] != t.prefix[eq])
    requires u.Node? && u.nbits == eq && NodeBits(u) == NodeBits(t)[..eq] && u.nRules == (if eq == |s| then 1 else 0)
    requires Edge(u, t.prefix[eq]) == short && Edge(u, !t.prefix[eq]) == fork
    requires eq <= |q| && q[..eq] == NodeBits(t)[..eq] ==> Count(short, q[eq..]) == Count(t, q)
    requires eq <= |q| ==> Count(fork, q[eq..]) == if eq < |s| && q[eq..] == s[eq..] then 1 else 0
    ensures Count(u, q) == Count(t, q) + if q == s then 1 else 0
  {
    var ob := t.prefix[eq];
    assert s == s[..eq] + s[eq..];
    if |q| < eq || q[..eq] != NodeBits(t)[..eq] {
      if |q| >= t.nbits {
        assert q[..t.nbits][..eq] == q[..eq];
      }
    } else if |q| == eq {
      assert q == q[..eq];
    } else {
      assert q == q[..eq] + q[eq..] && q[eq..][0] == q[eq];
      if q[eq] != ob && |q| >= t.nbits {
        assert q[..t.nbits][eq] == q[eq];
      }
    }
  }

  lemma ForkCount(pr: seq<Word>, ofs: nat, mlen: nat, q: seq<bool>)
    requires ofs <= mlen <= 32 * |pr|
    ensures Count(Fork(pr, ofs, mlen), q) == if ofs < mlen && q == Rest(pr, ofs, mlen) then 1 else 0
  {
    hide BranchCreate, TrieGetPrefix, RawGetPrefix, Bits;
    if ofs < mlen {
      BranchCreateCount(pr, ofs, mlen - ofs, 1, q);
    }
  }

  /** Inserting keeps the shape and adds exactly one rule under the prefix. */
  lemma {:induction false} InsertSpec(t: Trie, root: bool, pr: seq<Word>, ofs: nat, mlen: nat)
    requires ofs < mlen <= 32 * |pr| && Ok(t, root, 32 * |pr| - ofs)
    requires !root ==> EdgeOk(t, Bits(pr)[ofs])
    ensures Ok(Insert(t, pr, ofs, mlen), root, 32 * |pr| - ofs)
    ensures !root ==> EdgeOk(Insert(t, pr, ofs, mlen), Bits(pr)[ofs])
    ensures Insert(t, pr, ofs, mlen).Node?
    ensures forall q :: Count(Insert(t, pr, ofs, mlen), q)
                     == Count(t, q) + if q == Rest(pr, ofs, mlen) then 1 else 0
    decreases t
  {
    hide Lcp, Split, BranchCreate, TriePrefixEqualBits, Bits, Rest, Ok, Count;
    var s := Rest(pr, ofs, mlen);
    var u := Insert(t, pr, ofs, mlen);
    RestTail(pr, ofs, mlen, 0);
    if t.Nil? {
      InsertNil(pr, ofs, mlen);
    } else {
      TriePrefixEqualBitsIsLcp(t, pr, ofs, mlen);
      var eq := TriePrefixEqualBits(t, pr, ofs, mlen);
      if eq < t.nbits {
        assert eq == 0 ==> NodeBits(t)[0] != s[0];
        SplitOk(t, root, pr, ofs, mlen, eq);
        SplitParts(t, root, pr, ofs, mlen, eq);
        assert eq > 0 ==> NodeBits(u)[0] == NodeBits(t)[0];
        forall q ensures Count(u, q) == Count(t, q) + if q == s then 1 else 0 {
          SplitCount(t, root, pr, ofs, mlen, eq, q);
        }
      } else if ofs + eq == mlen {
        InsertHere(t, root, 32 * |pr| - ofs, s);
      } else {
        RestTail(pr, ofs, mlen, eq);
        var b := Bits(pr)[ofs + eq];
        EdgeIsOk(t, root, 32 * |pr| - ofs, b);
        InsertSpec(Edge(t, b), false, pr, ofs + eq, mlen);
        var c := Insert(Edge(t, b), pr, ofs + eq, mlen);
        ReplaceEdge(t, root, 32 * |pr| - ofs, b, c);
        forall q ensures Count(u, q) == Count(t, q) + if q == s then 1 else 0 {
          OneMoreBelow(t, b, c, s, q);
        }
      }
    }
  }

  lemma OneMoreBelow(t: Trie, b: bool, c: Trie, s: seq<bool>, q: seq<bool>)
    requires t.Node? && |s| > t.nbits && s[..t.nbits] == NodeBits(t) && s[t.nbits] == b
    requires forall x :: Count(c, x) == Count(Edge(t, b), x) + if x == s[t.nbits..] then 1 else 0
    ensures Count(SetEdge(t, b, c), q) == Count(t, q) + if q == s then 1 else 0
  {
    hide Count;
    var n := t.nbits;
    ReplaceEdgeCount(t, b, c, q);
    assert s == s[..n] + s[n..];
    if |q| > n && q[..n] == NodeBits(t) {
      assert q == q[..n] + q[n..];
    }
  }

  lemma InsertNil(pr: seq<Word>, ofs: nat, mlen: nat)
    requires ofs < mlen <= 32 * |pr|
    ensures var u := BranchCreate(pr, ofs, mlen - ofs, 1);
            && Ok(u, false, 32 * |pr| - ofs) && Ok(u, true, 32 * |pr| - ofs)
            && EdgeOk(u, Bits(pr)[ofs])
            && forall q :: Count(u, q) == Count(Nil, q) + if q == Rest(pr, ofs, mlen) then 1 else 0
  {
    hide BranchCreate, Bits, Ok;
    BranchCreateSpec(pr, ofs, mlen - ofs, 1);
    var u := BranchCreate(pr, ofs, mlen - ofs, 1);
    OkRoom(u, false, mlen - ofs, 32 * |pr| - ofs);
    OkAsRoot(u, 32 * |pr| - ofs);
    forall q ensures Count(u, q) == if q == Rest(pr, ofs, mlen) then 1 else 0 {
      BranchCreateCount(pr, ofs, mlen - ofs, 1, q);
    }
  }

  lemma InsertHere(t: Trie, root: bool, room: nat, s: seq<bool>)
    requires t.Node? && Ok(t, root, room) && s == NodeBits(t) && s != []
    ensures Ok(t.(nRules := t.nRules + 1), root, room)
    ensures forall q :: Count(t.(nRules := t.nRules + 1), q) == Count(t, q) + if q == s then 1 else 0
  {
    forall q ensures Count(t.(nRules := t.nRules + 1), q) == Count(t, q) + if q == s then 1 else 0 {
      if |q| == t.nbits { assert q[..t.nbits] == q; }
    }
  }

  lemma EdgeIsOk(t: Trie, root: bool, room: nat, b: bool)
    requires t.Node? && Ok(t, root, room)
    ensures t.nbits <= room && Ok(Edge(t, b), false, room - t.nbits) && EdgeOk(Edge(t, b), b)
  {
  }

  lemma ReplaceEdge(t: Trie, root: bool, room: nat, b: bool, c: Trie)
    requires t.Node? && Ok(t, root, room)
    requires c.Node? && Ok(c, false, room - t.nbits) && EdgeOk(c, b)
    ensures Ok(SetEdge(t, b, c), root, room)
  {
  }

  lemma ReplaceEdgeCount(t: Trie, b: bool, c: Trie, q: seq<bool>)
    requires t.Node?
    ensures Count(SetEdge(t, b, c), q) == Count(t, q)
          + if |q| > t.nbits && q[..t.nbits] == NodeBits(t) && q[t.nbits] == b
            then Count(c, q[t.nbits..]) - Count(Edge(t, b), q[t.nbits..]) else 0
  {
  }

  lemma OkAsRoot(t: Trie, room: nat)
    requires Ok(t, false, room)
    ensures Ok(t, true, room)
  {
  }


  // ------------------------------------------------ removal

  /** A node left without rules and with at most one child goes away: with no
      child it vanishes, with one it merges with the child if 32 bits are
      enough for both. */
  function Prune(t: Trie): Trie
    requires t.Node?
  {
    if t.nRules > 0 || (t.e0.Node? && t.e1.Node?) then t
    else
      var next := if t.e0.Node? then t.e0 else t.e1;
      if next.Nil? then Nil
      else if t.nbits + next.nbits > TRIE_PREFIX_BITS then t
      else Merged(t, next)
  }

  function Merged(t: Trie, next: Trie): Trie
    requires t.Node? && next.Node? && t.nbits + next.nbits <= 32
  {
    next.(prefix := Or(t.prefix, Shr(next.prefix, t.nbits)), nbits := t.nbits + next.nbits)
  }

  function Nodes(t: Trie): nat {
    if t.Nil? then 0 else 1 + Nodes(t.e0) + Nodes(t.e1)
  }

  /** It saves a node exactly if it can: there are no rules here, no fork, and
      no child whose bits would not fit. */
  lemma PruneSaves(t: Trie)
    requires t.Node?
    ensures var next := if t.e0.Node? then t.e0 else t.e1;
            Nodes(Prune(t)) == Nodes(t) - if t.nRules == 0 && !(t.e0.Node? && t.e1.Node?) && (next.Node? ==> t.nbits + next.nbits <= 32) then 1 else 0
  {
    hide Or, Shr;
  }

  /** Result of a removal: whether the prefix was there, and the new trie. */
  datatype Removal = Removal(found: bool, trie: Trie)

  function Remove(t: Trie, pr: seq<Word>, ofs: nat, mlen: nat): Removal
    requires ofs < mlen <= 32 * |pr|
    decreases t
  {
    if t.Nil? then Removal(false, t)
    else
      var eq := TriePrefixEqualBits(t, pr, ofs, mlen);
      if eq < t.nbits then Removal(false, t)
      else if ofs + eq == mlen then
        if t.nRules == 0 then Removal(false, t) else Removal(true, Prune(t.(nRules := t.nRules - 1)))
      else
        var b := Bits(pr)[ofs + eq];
        var r := Remove(Edge(t, b), pr, ofs + eq, mlen);
        Removal(r.found, if !r.found then t
                         else if r.trie.Nil? then Prune(SetEdge(t, b, Nil))
                         else SetEdge(t, b, r.trie))
  }

  lemma MergedBits(t: Trie, next: Trie)
    requires t.Node? && next.Node? && t.nbits + next.nbits <= 32
    requires Clean(t.prefix, t.nbits) && Clean(next.prefix, next.nbits)
    ensures var u := Merged(t, next);
            NodeBits(u) == NodeBits(t) + NodeBits(next) && Clean(u.prefix, u.nbits)
  {
    var u := Merged(t, next);
    forall i | 0 <= i < 32
      ensures u.prefix[i] == if i < t.nbits then t.prefix[i] else next.prefix[i - t.nbits]
    {
      ShrAt(next.prefix, t.nbits, i);
    }
  }

  /** What Prune needs and gives; 't' may be a leaf without rules here. */
  predicate Prunable(t: Trie, root: bool, room: nat) {
    && t.Node? && t.nbits <= room && Clean(t.prefix, t.nbits) && (t.nbits == 0 ==> root && t.nRules == 0)
    && EdgeOk(t.e0, false) && EdgeOk(t.e1, true)
    && Ok(t.e0, false, room - t.nbits) && Ok(t.e1, false, room - t.nbits)
  }

  lemma PruneOk(t: Trie, root: bool, room: nat, b: bool)
    requires Prunable(t, root, room) && (!root ==> t.prefix[0] == b)
    ensures Ok(Prune(t), root, room) && (!root ==> EdgeOk(Prune(t), b))
  {
    hide Merged, Ok;
    var next := if t.e0.Node? then t.e0 else t.e1;
    if t.nRules > 0 || (t.e0.Node? && t.e1.Node?) || (next.Node? && t.nbits + next.nbits > 32) {
      NodeOk(t, root, room, true);
    } else if next.Nil? {
      OkNil(root, room);
    } else {
      MergedOk(t, next, root, room);
      if !root {
        MergedFirst(t, next);
      }
    }
  }

  lemma OkNil(root: bool, room: nat)
    ensures Ok(Nil, root, room)
  {
  }

  lemma MergedFirst(t: Trie, next: Trie)
    requires t.Node? && next.Node? && t.nbits + next.nbits <= 32 && t.nbits > 0
    ensures Merged(t, next).prefix[0] == t.prefix[0]
  {
    ShrAt(next.prefix, t.nbits, 0);
  }

  lemma MergedOk(t: Trie, next: Trie, root: bool, room: nat)
    requires t.Node? && next.Node? && t.nbits + next.nbits <= 32
    requires t.nbits <= room && Clean(t.prefix, t.nbits) && Ok(next, false, room - t.nbits)
    ensures Ok(Merged(t, next), root, room) && Merged(t, next).nbits >= 1
  {
    hide Or, Shr;
    MergedBits(t, next);
    OkBasics(next, false, room - t.nbits);
    NodeOk(Merged(t, next), root, room, false);
  }

  lemma PruneCount(t: Trie, root: bool, room: nat, q: seq<bool>)
    requires Prunable(t, root, room)
    ensures Count(Prune(t), q) == Count(t, q)
  {
    hide Merged, Ok;
    if t.nRules == 0 && !(t.e0.Node? && t.e1.Node?) {
      var next := if t.e0.Node? then t.e0 else t.e1;
      if next.Nil? {
      } else if t.nbits + next.nbits <= 32 {
        OkClean(next, room - t.nbits);
        MergedCount(t, next, q);
      }
    }
  }

  lemma OkClean(t: Trie, room: nat)
    requires t.Node? && Ok(t, false, room)
    ensures Clean(t.prefix, t.nbits)
  {
  }

  lemma SameTail(x: seq<bool>, y: seq<bool>, z: seq<bool>)
    ensures x + y == x + z <==> y == z
  {
    if x + y == x + z {
      assert (x + y)[|x|..] == y && (x + z)[|x|..] == z;
    }
  }

  lemma MergedCount(t: Trie, next: Trie, q: seq<bool>)
    requires t.Node? && next.Node? && t.nbits + next.nbits <= 32 && next.nbits > 0
    requires Clean(t.prefix, t.nbits) && Clean(next.prefix, next.nbits)
    requires t.nRules == 0 && Edge(t, next.prefix[0]) == next && Edge(t, !next.prefix[0]).Nil?
    ensures Count(Merged(t, next), q) == Count(t, q)
  {
    hide Or, Shr;
    MergedBits(t, next);
    var u := Merged(t, next);
    var n, m := t.nbits, t.nbits + next.nbits;
    if |q| >= n && q[..n] == NodeBits(t) {
      var r := q[n..];
      if |q| >= m {
        assert q[..m] == q[..n] + r[..next.nbits];
        assert q[m..] == r[next.nbits..];
        SameTail(NodeBits(t), r[..next.nbits], NodeBits(next));
        assert q[n] == r[..next.nbits][0];
      }
    } else if |q| >= m {
      assert q[..m][..n] == q[..n] && NodeBits(u)[..n] == NodeBits(t);
    }
  }

  /** 'u' holds one rule less than 't' under 's', if 't' has one there. */
  ghost predicate OneLess(u: Trie, t: Trie, s: seq<bool>) {
    forall q :: Count(u, q) == Count(t, q) - if q == s && Count(t, q) > 0 then 1 else 0
  }

  /** Removing takes away exactly one rule under the prefix, or changes
      nothing when there is none. */
  lemma {:induction false} RemoveSpec(t: Trie, root: bool, pr: seq<Word>, ofs: nat, mlen: nat)
    requires ofs < mlen <= 32 * |pr| && Ok(t, root, 32 * |pr| - ofs)
    requires !root ==> EdgeOk(t, Bits(pr)[ofs])
    ensures Remove(t, pr, ofs, mlen).found <==> Count(t, Rest(pr, ofs, mlen)) > 0
    ensures !Remove(t, pr, ofs, mlen).found ==> Remove(t, pr, ofs, mlen).trie == t
    ensures Ok(Remove(t, pr, ofs, mlen).trie, root, 32 * |pr| - ofs)
    ensures !root ==> EdgeOk(Remove(t, pr, ofs, mlen).trie, Bits(pr)[ofs])
    ensures OneLess(Remove(t, pr, ofs, mlen).trie, t, Rest(pr, ofs, mlen))
    decreases t
  {
    hide Lcp, TriePrefixEqualBits, Bits, Rest, Ok, Prune, OneLess, Count;
    var s := Rest(pr, ofs, mlen);
    RestTail(pr, ofs, mlen, 0);
    if t.Nil? {
      NilCount(s);
      NoneLess(t, s);
    } else {
      TriePrefixEqualBitsIsLcp(t, pr, ofs, mlen);
      var eq := TriePrefixEqualBits(t, pr, ofs, mlen);
      var room := 32 * |pr| - ofs;
      if eq < t.nbits {
        Mismatched(t, s, eq);
        NoneLess(t, s);
      } else if ofs + eq == mlen {
        assert s == NodeBits(t);
        if t.nRules > 0 {
          RemoveHere(t, root, room, s);
        } else {
          CountHere(t, s);
          NoneLess(t, s);
        }
      } else {
        RestTail(pr, ofs, mlen, eq);
        var b := Bits(pr)[ofs + eq];
        EdgeIsOk(t, root, room, b);
        RemoveSpec(Edge(t, b), false, pr, ofs + eq, mlen);
        RemoveBelow(t, root, room, b, Remove(Edge(t, b), pr, ofs + eq, mlen), s);
      }
    }
  }

  lemma NilCount(s: seq<bool>)
    ensures Count(Nil, s) == 0
  {
  }

  lemma CountHere(t: Trie, s: seq<bool>)
    requires t.Node? && s == NodeBits(t)
    ensures Count(t, s) == t.nRules
  {
    assert s[..t.nbits] == s;
  }

  lemma NoneLess(t: Trie, s: seq<bool>)
    requires Count(t, s) == 0
    ensures OneLess(t, t, s)
  {
  }

  lemma Mismatched(t: Trie, s: seq<bool>, eq: nat)
    requires t.Node? && eq == Lcp(NodeBits(t), s) < t.nbits
    ensures Count(t, s) == 0
  {
    if |s| >= t.nbits {
      assert s[..t.nbits][eq] == s[eq] != NodeBits(t)[eq];
    }
  }

  lemma RemoveHere(t: Trie, root: bool, room: nat, s: seq<bool>)
    requires t.Node? && Ok(t, root, room) && s == NodeBits(t) && s != [] && t.nRules > 0
    ensures var u := Prune(t.(nRules := t.nRules - 1));
            Ok(u, root, room) && (!root ==> EdgeOk(u, s[0])) && OneLess(u, t, s)
    ensures Count(t, s) > 0
  {
    hide Prune;
    var d := t.(nRules := t.nRules - 1);
    var u := Prune(d);
    PruneOk(d, root, room, s[0]);
    forall q ensures Count(u, q) == Count(t, q) - if q == s && Count(t, q) > 0 then 1 else 0 {
      PruneCount(d, root, room, q);
      if |q| == t.nbits { assert q[..t.nbits] == q; }
    }
  }

  lemma RemoveBelow(t: Trie, root: bool, room: nat, b: bool, r: Removal, s: seq<bool>)
    requires t.Node? && Ok(t, root, room)
    requires |s| > t.nbits && s[..t.nbits] == NodeBits(t) && s[t.nbits] == b
    requires r.found <==> Count(Edge(t, b), s[t.nbits..]) > 0
    requires !r.found ==> r.trie == Edge(t, b)
    requires Ok(r.trie, false, room - t.nbits) && EdgeOk(r.trie, b)
    requires OneLess(r.trie, Edge(t, b), s[t.nbits..])
    ensures var u := if !r.found then t
                     else if r.trie.Nil? then Prune(SetEdge(t, b, Nil))
                     else SetEdge(t, b, r.trie);
            Ok(u, root, room) && (!root ==> EdgeOk(u, s[0])) && OneLess(u, t, s)
    ensures r.found <==> Count(t, s) > 0
  {
    hide Prune, Count;
    var e := SetEdge(t, b, r.trie);
    var u := if !r.found then t else if r.trie.Nil? then Prune(e) else e;
    if !root { assert s[0] == s[..t.nbits][0]; }
    if r.found && r.trie.Nil? {
      assert Prunable(e, root, room);
      PruneOk(e, root, room, s[0]);
    }
    assert Count(t, s) == Count(Edge(t, b), s[t.nbits..]) by { CountBelow(t, b, s); }
    forall q ensures Count(u, q) == Count(t, q) - if q == s && Count(t, q) > 0 then 1 else 0 {
      if r.found && r.trie.Nil? {
        PruneCount(e, root, room, q);
      }
      RemoveBelowCount(t, b, r.trie, s, q);
    }
  }

  lemma CountBelow(t: Trie, b: bool, s: seq<bool>)
    requires t.Node? && |s| > t.nbits && s[..t.nbits] == NodeBits(t) && s[t.nbits] == b
    ensures Count(t, s) == Count(Edge(t, b), s[t.nbits..])
  {
  }

  lemma RemoveBelowCount(t: Trie, b: bool, c: Trie, s: seq<bool>, q: seq<bool>)
    requires t.Node? && |s| > t.nbits && s[..t.nbits] == NodeBits(t) && s[t.nbits] == b
    requires OneLess(c, Edge(t, b), s[t.nbits..])
    ensures Count(SetEdge(t, b, c), q) == Count(t, q) - if q == s && Count(t, q) > 0 then 1 else 0
  {
    hide Count;
    var n := t.nbits;
    ReplaceEdgeCount(t, b, c, q);
    assert s == s[..n] + s[n..];
    if |q| > n && q[..n] == NodeBits(t) && q[n] == b {
      assert q == q[..n] + q[n..];
      CountBelow(t, b, q);
    }
  }

  // ------------------------------------------------ lookup

  /** Result of a lookup: longest match and how many bits decided it. */
  datatype Found = Found(matchLen: nat, checkBits: nat)

  /** Lookup of the bit string 'v' below a parent that is, or is not, a leaf. */
  function Find(t: Trie, v: seq<bool>, parentLeaf: bool): Found
    decreases t
  {
    if t.Nil? then Found(0, if parentLeaf then 0 else 1)
    else
      var eq := Lcp(NodeBits(t), v);
      if eq < t.nbits then Found(0, eq + 1)
      else if |v| == t.nbits then Found(if t.nRules > 0 then t.nbits else 0, t.nbits)
      else
        var r := Find(Edge(t, v[t.nbits]), v[t.nbits..], IsLeaf(t));
        Found(if r.matchLen > 0 then t.nbits + r.matchLen else if t.nRules > 0 then t.nbits else 0,
              t.nbits + r.checkBits)
  }

  /** 'm' is the length of the longest stored prefix of 'v', 0 if there is none. */
  ghost predicate IsLongest(t: Trie, v: seq<bool>, m: nat) {
    && m <= |v| && (m > 0 ==> Count(t, v[..m]) > 0)
    && forall k :: m < k <= |v| ==> Count(t, v[..k]) == 0
  }

  lemma {:induction false} FindSpec(t: Trie, root: bool, v: seq<bool>, parentLeaf: bool)
    requires Ok(t, root, |v|) && v != []
    ensures var r := Find(t, v, parentLeaf);
            && r.matchLen <= r.checkBits <= |v|
            && (t.Node? || !parentLeaf ==> r.checkBits > 0)
            && IsLongest(t, v, r.matchLen)
    decreases t
  {
    hide Find, Ok, Lcp, Count, IsLongest;
    FindUnfold(t, v, parentLeaf);
    if t.Nil? {
      NilLongest(v);
    } else {
      var n, eq := t.nbits, Lcp(NodeBits(t), v);
      OkBasics(t, root, |v|);
      EmptyRoot(t, root, |v|);
      if eq < n {
        MismatchLongest(t, v, eq);
      } else if |v| > n {
        var c := Edge(t, v[n]);
        EdgeIsOk(t, root, |v|, v[n]);
        if n == 0 { EdgeNotLeaf(t, root, |v|); }
        FindSpec(c, false, v[n..], IsLeaf(t));
        FindThrough(t, v, Find(c, v[n..], IsLeaf(t)).matchLen);
      } else {
        assert v == NodeBits(t);
        WholeLongest(t, v);
      }
    }
  }

  lemma NilLongest(v: seq<bool>)
    ensures IsLongest(Nil, v, 0)
  {
  }

  lemma EdgeNotLeaf(t: Trie, root: bool, room: nat)
    requires t.Node? && Ok(t, root, room) && t.nbits == 0
    ensures !IsLeaf(t)
  {
  }

  lemma MismatchLongest(t: Trie, v: seq<bool>, eq: nat)
    requires t.Node? && t.nbits <= |v| && eq == Lcp(NodeBits(t), v) < t.nbits
    ensures IsLongest(t, v, 0)
  {
    hide Lcp;
    forall k | 0 < k <= |v| ensures Count(t, v[..k]) == 0 {
      if k >= t.nbits {
        assert v[..k][..t.nbits][eq] == v[eq];
      }
    }
  }

  lemma WholeLongest(t: Trie, v: seq<bool>)
    requires t.Node? && v == NodeBits(t) && v != []
    ensures IsLongest(t, v, if t.nRules > 0 then t.nbits else 0)
  {
    assert v[..|v|] == v;
  }

  lemma FindThrough(t: Trie, v: seq<bool>, m: nat)
    requires t.Node? && |v| > t.nbits && v[..t.nbits] == NodeBits(t)
    requires t.nbits == 0 ==> t.nRules == 0
    requires IsLongest(Edge(t, v[t.nbits]), v[t.nbits..], m)
    ensures IsLongest(t, v, if m > 0 then t.nbits + m else if t.nRules > 0 then t.nbits else 0)
  {
    hide Ok;
    var n, w, c := t.nbits, v[t.nbits..], Edge(t, v[t.nbits]);
    forall k | 0 < k <= |v|
      ensures Count(t, v[..k]) == if k < n then 0 else if k == n then t.nRules else Count(c, w[..k - n])
    {
      if k >= n {
        assert v[..k][..n] == v[..n];
        if k > n { assert v[..k][n..] == w[..k - n]; }
      }
    }
  }

  /** The first 'checkBits' bits decide the whole result. */
  lemma {:induction false} FindStable(t: Trie, root: bool, v: seq<bool>, w: seq<bool>, parentLeaf: bool)
    requires Ok(t, root, |v|) && |v| == |w| && v != []
    requires Find(t, v, parentLeaf).checkBits <= |v|
    requires v[..Find(t, v, parentLeaf).checkBits] == w[..Find(t, v, parentLeaf).checkBits]
    ensures Find(t, w, parentLeaf) == Find(t, v, parentLeaf)
    decreases t
  {
    hide Lcp, Ok, Count, Find, IsLongest;
    FindUnfold(t, v, parentLeaf);
    FindUnfold(t, w, parentLeaf);
    if t.Node? {
      var c := Find(t, v, parentLeaf).checkBits;
      var n, eq := t.nbits, Lcp(NodeBits(t), v);
      if eq < n {
        assert v[..eq] == v[..c][..eq] && w[..eq] == w[..c][..eq];
        assert v[eq] == v[..c][eq] && w[eq] == w[..c][eq];
        LcpUnique(NodeBits(t), w, eq);
      } else {
        assert v[..n] == v[..c][..n] && w[..n] == w[..c][..n];
        LcpUnique(NodeBits(t), w, n);
        if |v| > n && !IsLeaf(t) {
          EdgeIsOk(t, root, |v|, v[n]);
          FindSpec(Edge(t, v[n]), false, v[n..], false);
          var cc := Find(Edge(t, v[n]), v[n..], false).checkBits;
          assert cc > 0;
          assert v[n..][..cc] == v[..c][n..] && w[n..][..cc] == w[..c][n..];
          assert v[n] == v[..c][n] && w[n] == w[..c][n];
          FindStable(Edge(t, v[n]), false, v[n..], w[n..], false);
        } else if |v| > n {
          FindUnfold(Nil, v[n..], true);
          FindUnfold(Nil, w[n..], true);
        }
      }
    }
  }

  /** Some string that a trie holds. */
  lemma {:induction false} SomeHeld(t: Trie, root: bool, room: nat) returns (q: seq<bool>)
    requires t.Node? && Ok(t, root, room)
    ensures Count(t, q) > 0 && t.nbits <= |q| <= room && q[..t.nbits] == NodeBits(t)
    decreases t
  {
    hide Clean;
    var n := t.nbits;
    if IsLeaf(t) {
      q := NodeBits(t);
      LeafCount(t, q);
      assert q[..n] == q;
    } else {
      q := HeldBelow(t, root, room, t.e1.Node?);
    }
  }

  /** One that goes on with this bit. */
  lemma {:induction false} HeldBelow(t: Trie, root: bool, room: nat, b: bool) returns (q: seq<bool>)
    requires t.Node? && Ok(t, root, room) && Edge(t, b).Node?
    ensures Count(t, q) > 0 && t.nbits < |q| <= room && q[..t.nbits] == NodeBits(t) && q[t.nbits] == b
    decreases t, 0
  {
    hide Clean;
    var n, c := t.nbits, Edge(t, b);
    var below := SomeHeld(c, false, room - n);
    q := NodeBits(t) + below;
    assert q[..n] == NodeBits(t) && q[n..] == below;
    assert below[..c.nbits][0] == NodeBits(c)[0];
  }

  /** A lookup looks at no more bits than it must: all of them are in the match
      or else the trie holds a longer string that differs first in the last of
      them. */
  lemma {:induction false} FindTight(t: Trie, root: bool, v: seq<bool>, parentLeaf: bool) returns (q: seq<bool>)
    requires t.Node? && Ok(t, root, |v|) && v != []
    requires Find(t, v, parentLeaf).matchLen < Find(t, v, parentLeaf).checkBits
    ensures var c := Find(t, v, parentLeaf).checkBits;
            Count(t, q) > 0 && c <= |q| <= |v| && q[..c - 1] == v[..c - 1] && q[c - 1] != v[c - 1]
    decreases t
  {
    hide Find, Ok, Lcp, Count, IsLongest;
    FindUnfold(t, v, parentLeaf);
    OkBasics(t, root, |v|);
    EmptyRoot(t, root, |v|);
    var n, eq := t.nbits, Lcp(NodeBits(t), v);
    if eq < n {
      q := SomeHeld(t, root, |v|);
      Strays(q, NodeBits(t), v);
    } else if |v| == n {
      FullIsLeaf(t, root);
      q := [];
      assert false;
    } else {
      var b := v[n];
      EdgeIsOk(t, root, |v|, b);
      if Edge(t, b).Nil? {
        FindUnfold(Nil, v[n..], IsLeaf(t));
        LeafHolds(t, root, |v|);
        q := HeldBelow(t, root, |v|, !b);
      } else {
        FindSpec(Edge(t, b), false, v[n..], IsLeaf(t));
        var below := FindTight(Edge(t, b), false, v[n..], IsLeaf(t));
        q := NodeBits(t) + below;
        BelowTight(t, b, below, q, v, Find(Edge(t, b), v[n..], IsLeaf(t)).checkBits);
      }
    }
  }

  /** What starts with 'x' leaves 'v' where 'x' does. */
  lemma Strays(q: seq<bool>, x: seq<bool>, v: seq<bool>)
    requires |x| <= |q| && q[..|x|] == x && Lcp(x, v) < |x| <= |v|
    ensures q[..Lcp(x, v)] == v[..Lcp(x, v)] && q[Lcp(x, v)] != v[Lcp(x, v)]
  {
    hide Lcp;
    var n, i := |x|, Lcp(x, v);
    assert q[..n][..i] == q[..i] && q[..n][i] == q[i];
  }

  /** Nothing hangs below the last bit, so a node there has rules. */
  lemma FullIsLeaf(t: Trie, root: bool)
    requires t.Node? && Ok(t, root, t.nbits) && t.nbits > 0
    ensures IsLeaf(t) && t.nRules > 0
  {
    assert t.e0.Nil? && t.e1.Nil?;
  }

  lemma LeafHolds(t: Trie, root: bool, room: nat)
    requires t.Node? && Ok(t, root, room)
    ensures IsLeaf(t) ==> t.nRules > 0 && t.nbits > 0
    ensures !IsLeaf(t) ==> t.e0.Node? || t.e1.Node?
  {
  }

  lemma BelowTight(t: Trie, b: bool, below: seq<bool>, q: seq<bool>, v: seq<bool>, c: nat)
    requires t.Node? && |v| > t.nbits && v[..t.nbits] == NodeBits(t) && v[t.nbits] == b && q == NodeBits(t) + below
    requires 0 < c <= |below| <= |v| - t.nbits && below[..c - 1] == v[t.nbits..][..c - 1] && below[c - 1] != v[t.nbits..][c - 1]
    requires Count(Edge(t, b), below) > 0 && EdgeOk(Edge(t, b), b)
    ensures Count(t, q) > 0 && t.nbits + c <= |q| <= |v|
    ensures q[..t.nbits + c - 1] == v[..t.nbits + c - 1] && q[t.nbits + c - 1] != v[t.nbits + c - 1]
  {
    hide Count, EdgeOk;
    CountUnder(t, b, below);
    FirstDifference(NodeBits(t), v[t.nbits..], below, c - 1);
    assert v == v[..t.nbits] + v[t.nbits..];
  }

  /** Where two strings with the same start differ. */
  lemma FirstDifference(head: seq<bool>, x: seq<bool>, y: seq<bool>, i: nat)
    requires i < |x| && i < |y| && x[..i] == y[..i] && x[i] != y[i]
    ensures (head + x)[..|head| + i] == (head + y)[..|head| + i] && (head + x)[|head| + i] != (head + y)[|head| + i]
  {
    assert (head + x)[..|head| + i] == head + x[..i] && (head + y)[..|head| + i] == head + y[..i];
  }

  lemma CountUnder(t: Trie, b: bool, below: seq<bool>)
    requires t.Node? && Count(Edge(t, b), below) > 0 && EdgeOk(Edge(t, b), b)
    ensures Count(t, NodeBits(t) + below) == Count(Edge(t, b), below)
  {
    var n, e, q := t.nbits, Edge(t, b), NodeBits(t) + below;
    assert below[..e.nbits][0] == NodeBits(e)[0];
    assert q[..n] == NodeBits(t) && q[n..] == below && q[n] == b;
  }

  /** trie_lookup_value: walk down while the node's bits match. */
  method LookupValue(root: Trie, value: seq<Word>, nBits: nat) returns (matchLen: nat, checkBits: nat)
    requires nBits == 32 * |value| > 0 && Ok(root, true, nBits)
    ensures Found(matchLen, checkBits) == Find(root, Bits(value), true)
  {
    hide Bits, Ok, Lcp, PrefixEqualBits, Find;
    var v := Bits(value);
    var node, ofs, prevLeaf := root, 0, true;
    matchLen := 0;
    ghost var isRoot := true;
    assert v[0..] == v;
    while node.Node?
      invariant ofs < nBits && Ok(node, isRoot, nBits - ofs)
      invariant var r := Find(node, v[ofs..], prevLeaf);
                Find(root, v, true) == Found(if r.matchLen > 0 then ofs + r.matchLen else matchLen, ofs + r.checkBits)
      decreases node
    {
      OkBasics(node, isRoot, nBits - ofs);
      var rest := v[ofs..];
      FindUnfold(node, rest, prevLeaf);
      var eqbits := PrefixEqualBits(node.prefix, node.nbits, value, ofs);
      WalkBits(node, value, ofs);
      if eqbits < node.nbits {
        return matchLen, ofs + eqbits + 1;
      }
      EmptyRoot(node, isRoot, nBits - ofs);
      if node.nRules > 0 {
        matchLen := ofs + eqbits;
      }
      if ofs + eqbits >= nBits {
        return matchLen, nBits;
      }
      assert rest[eqbits..] == v[ofs + eqbits..] && rest[eqbits] == v[ofs + eqbits];
      prevLeaf := IsLeaf(node);
      ofs := ofs + eqbits;
      EdgeIsOk(node, isRoot, nBits - (ofs - eqbits), v[ofs]);
      node := Edge(node, v[ofs]);
      isRoot := false;
    }
    FindUnfold(node, v[ofs..], prevLeaf);
    return matchLen, if prevLeaf then ofs else ofs + 1;
  }

  lemma WalkBits(t: Trie, value: seq<Word>, ofs: nat)
    requires t.Node? && ofs < 32 * |value| && ofs + t.nbits <= 32 * |value|
    ensures PrefixEqualBits(t.prefix, t.nbits, value, ofs) == Lcp(NodeBits(t), Bits(value)[ofs..])
  {
    hide Lcp, PrefixEqualBits, Bits;
    PrefixEqualBitsIsLcp(t.prefix, t.nbits, value, ofs);
    var v := Bits(value);
    LcpOfLonger(NodeBits(t), v[ofs..]);
    assert v[ofs..][..t.nbits] == v[ofs..ofs + t.nbits];
  }

  lemma EmptyRoot(t: Trie, root: bool, room: nat)
    requires t.Node? && Ok(t, root, room)
    ensures t.nbits == 0 ==> t.nRules == 0
  {
  }

  lemma FindUnfold(t: Trie, v: seq<bool>, parentLeaf: bool)
    ensures t.Nil? ==> Find(t, v, parentLeaf) == Found(0, if parentLeaf then 0 else 1)
    ensures t.Node? && Lcp(NodeBits(t), v) < t.nbits ==> Find(t, v, parentLeaf) == Found(0, Lcp(NodeBits(t), v) + 1)
    ensures t.Node? && Lcp(NodeBits(t), v) == t.nbits == |v|
         ==> Find(t, v, parentLeaf) == Found(if t.nRules > 0 then t.nbits else 0, t.nbits)
    ensures t.Node? && Lcp(NodeBits(t), v) == t.nbits < |v| ==>
              var r := Find(Edge(t, v[t.nbits]), v[t.nbits..], IsLeaf(t));
              Find(t, v, parentLeaf) == Found(if r.matchLen > 0 then t.nbits + r.matchLen else if t.nRules > 0 then t.nbits else 0,
                                              t.nbits + r.checkBits)
  {
  }

  lemma LcpOfLonger(a: seq<bool>, b: seq<bool>)
    requires |a| <= |b|
    ensures Lcp(a, b[..|a|]) == Lcp(a, b)
  {
    hide Lcp;
    var n := Lcp(a, b);
    assert b[..|a|][..n] == b[..n];
    LcpUnique(a, b[..|a|], n);
  }

  // ------------------------------------------------ every run

  /** Insertion or removal of the first 'len' bits of 'pr'. */
  datatype Op = Put(pr: seq<Word>, len: nat) | Take(pr: seq<Word>, len: nat)

  predicate OpOk(op: Op, words: nat) {
    |op.pr| == words && 0 < op.len <= 32 * words
  }

  function Apply(t: Trie, op: Op): Trie
    requires 0 < op.len <= 32 * |op.pr|
  {
    match op
    case Put(pr, len) => Insert(t, pr, 0, len)
    case Take(pr, len) => Remove(t, pr, 0, len).trie
  }

  /** The multiset of prefixes the operations leave, taking nothing out
      where there is nothing. */
  ghost function Prefixes(ops: seq<Op>, words: nat): multiset<seq<bool>>
    requires forall i :: 0 <= i < |ops| ==> OpOk(ops[i], words)
  {
    if ops == [] then multiset{}
    else
      var n := |ops| - 1;
      assert OpOk(ops[n], words);
      var p := Rest(ops[n].pr, 0, ops[n].len);
      if ops[n].Put? then Prefixes(ops[..n], words) + multiset{p} else Prefixes(ops[..n], words) - multiset{p}
  }

  function RunOps(ops: seq<Op>, words: nat): Trie
    requires forall i :: 0 <= i < |ops| ==> OpOk(ops[i], words)
  {
    if ops == [] then Nil
    else
      assert OpOk(ops[|ops| - 1], words);
      Apply(RunOps(ops[..|ops| - 1], words), ops[|ops| - 1])
  }

  /** After any run the trie is well shaped and holds exactly the multiset of
      prefixes inserted minus those removed. */
  lemma {:induction false} RunOpsHolds(ops: seq<Op>, words: nat)
    requires forall i :: 0 <= i < |ops| ==> OpOk(ops[i], words)
    ensures Ok(RunOps(ops, words), true, 32 * words)
    ensures forall q :: Count(RunOps(ops, words), q) == Prefixes(ops, words)[q]
  {
    hide Ok, Count, Insert, Remove, Rest;
    if ops == [] {
      OkNil(true, 32 * words);
      forall q ensures Count(Nil, q) == 0 { NilCount(q); }
    } else {
      var n := |ops| - 1;
      RunOpsHolds(ops[..n], words);
      var t, op := RunOps(ops[..n], words), ops[n];
      if op.Put? {
        InsertSpec(t, true, op.pr, 0, op.len);
      } else {
        RemoveSpec(t, true, op.pr, 0, op.len);
      }
    }
  }
}
