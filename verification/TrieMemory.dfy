/** The prefix trie as it lies in memory: nodes at addresses, joined by edge
    pointers that insertion and removal rewrite in place.  Each update is
    proved to leave the trie that the update of the value gives, and exactly
    its nodes allocated. */
module TrieMemory {
  import opened Words
  import PT = PrefixTrie
  import TS = TrieStack

  /** A node; address 0 is the null pointer. */
  datatype Cell = Cell(prefix: Word, nbits: PT.BitCount, nRules: nat, e0: nat, e1: nat)

  type Mem = map<nat, Cell>

  function EdgeOf(c: Cell, b: bool): nat {
    if b then c.e1 else c.e0
  }

  function WithEdge(c: Cell, b: bool, p: nat): Cell {
    if b then c.(e1 := p) else c.(e0 := p)
  }

  /** The nodes of a trie. */
  ghost function Cells(mem: Mem, p: nat, t: PT.Trie): set<nat>
    decreases t
  {
    if t.Nil? || p !in mem then {} else {p} + Cells(mem, mem[p].e0, t.e0) + Cells(mem, mem[p].e1, t.e1)
  }

  /** The trie that starts at p has the value t, and no node occurs twice. */
  ghost predicate Rep(mem: Mem, p: nat, t: PT.Trie)
    decreases t
  {
    if t.Nil? then p == 0
    else
      && p != 0 && p in mem && mem[p].prefix == t.prefix && mem[p].nbits == t.nbits && mem[p].nRules == t.nRules
      && Rep(mem, mem[p].e0, t.e0) && Rep(mem, mem[p].e1, t.e1)
      && p !in Cells(mem, mem[p].e0, t.e0) && p !in Cells(mem, mem[p].e1, t.e1)
      && Cells(mem, mem[p].e0, t.e0) !! Cells(mem, mem[p].e1, t.e1)
  }

  lemma {:induction false} RepFrame(mem: Mem, mem1: Mem, p: nat, t: PT.Trie)
    requires Rep(mem, p, t) && forall c :: c in Cells(mem, p, t) ==> c in mem1 && c in mem && mem1[c] == mem[c]
    ensures Rep(mem1, p, t) && Cells(mem1, p, t) == Cells(mem, p, t)
    decreases t
  {
    if t.Node? {
      assert p in Cells(mem, p, t);
      RepFrame(mem, mem1, mem[p].e0, t.e0);
      RepFrame(mem, mem1, mem[p].e1, t.e1);
    }
  }

  lemma {:induction false} CellsIn(mem: Mem, p: nat, t: PT.Trie)
    ensures Cells(mem, p, t) <= mem.Keys
    decreases t
  {
    if t.Node? && p in mem {
      CellsIn(mem, mem[p].e0, t.e0);
      CellsIn(mem, mem[p].e1, t.e1);
    }
  }

  /** A node and its two subtries. */
  lemma Apart(mem: Mem, p: nat, t: PT.Trie, b: bool)
    requires Rep(mem, p, t) && t.Node?
    ensures p != 0 && p in mem && mem[p].prefix == t.prefix && mem[p].nbits == t.nbits && mem[p].nRules == t.nRules
    ensures Rep(mem, EdgeOf(mem[p], b), PT.Edge(t, b))
    ensures p !in Cells(mem, EdgeOf(mem[p], b), PT.Edge(t, b))
    ensures Cells(mem, EdgeOf(mem[p], b), PT.Edge(t, b)) !! Cells(mem, EdgeOf(mem[p], !b), PT.Edge(t, !b))
    ensures Cells(mem, p, t) == {p} + Cells(mem, EdgeOf(mem[p], b), PT.Edge(t, b)) + Cells(mem, EdgeOf(mem[p], !b), PT.Edge(t, !b))
  {
  }

  // ------------------------------------------------ paths

  /** The subtrie at the end of a path, and the trie with it replaced. */
  function Sub(t: PT.Trie, bits: seq<bool>): PT.Trie
    decreases |bits|
  {
    if bits == [] || t.Nil? then t else Sub(PT.Edge(t, bits[0]), bits[1..])
  }

  function ReplaceAt(t: PT.Trie, bits: seq<bool>, v: PT.Trie): PT.Trie
    decreases |bits|
  {
    if bits == [] || t.Nil? then v else PT.SetEdge(t, bits[0], ReplaceAt(PT.Edge(t, bits[0]), bits[1..], v))
  }

  function Walk(mem: Mem, p: nat, bits: seq<bool>): nat
    decreases |bits|
  {
    if bits == [] || p !in mem then p else Walk(mem, EdgeOf(mem[p], bits[0]), bits[1..])
  }

  /** The path leads through nodes to its end. */
  ghost predicate Through(t: PT.Trie, bits: seq<bool>)
    decreases |bits|
  {
    bits == [] || (t.Node? && Through(PT.Edge(t, bits[0]), bits[1..]))
  }

  lemma {:induction false} RepSub(mem: Mem, p: nat, t: PT.Trie, bits: seq<bool>)
    requires Rep(mem, p, t) && Through(t, bits)
    ensures Rep(mem, Walk(mem, p, bits), Sub(t, bits)) && Cells(mem, Walk(mem, p, bits), Sub(t, bits)) <= Cells(mem, p, t)
    decreases |bits|
  {
    if bits != [] {
      RepSub(mem, EdgeOf(mem[p], bits[0]), PT.Edge(t, bits[0]), bits[1..]);
    }
  }

  /** One step further. */
  lemma {:induction false} Longer(t: PT.Trie, bits: seq<bool>, b: bool, v: PT.Trie)
    requires Through(t, bits) && Sub(t, bits).Node?
    ensures Through(t, bits + [b]) && Sub(t, bits + [b]) == PT.Edge(Sub(t, bits), b)
    ensures ReplaceAt(t, bits + [b], v) == ReplaceAt(t, bits, PT.SetEdge(Sub(t, bits), b, v))
    decreases |bits|
  {
    var more := bits + [b];
    if bits == [] {
      assert more[1..] == [];
      assert ReplaceAt(PT.Edge(t, b), [], v) == v;
    } else {
      assert more[0] == bits[0] && more[1..] == bits[1..] + [b];
      Longer(PT.Edge(t, bits[0]), bits[1..], b, v);
    }
  }

  lemma {:induction false} Extend(mem: Mem, p: nat, t: PT.Trie, bits: seq<bool>, b: bool)
    requires Rep(mem, p, t) && Through(t, bits) && Sub(t, bits).Node?
    ensures Walk(mem, p, bits) in mem && Walk(mem, p, bits + [b]) == EdgeOf(mem[Walk(mem, p, bits)], b)
    decreases |bits|
  {
    var more := bits + [b];
    if bits == [] {
      assert more[1..] == [];
    } else {
      assert more[0] == bits[0] && more[1..] == bits[1..] + [b];
      Extend(mem, EdgeOf(mem[p], bits[0]), PT.Edge(t, bits[0]), bits[1..], b);
    }
  }

  /** Everything of a trie but the subtrie at the end of a path. */
  ghost function Outside(mem: Mem, p: nat, t: PT.Trie, bits: seq<bool>): set<nat> {
    Cells(mem, p, t) - Cells(mem, Walk(mem, p, bits), Sub(t, bits))
  }

  /** The node with the last edge of a path; none for the empty path, whose
      edge is the root pointer. */
  function Parent(mem: Mem, p: nat, bits: seq<bool>): nat {
    if bits == [] then 0 else Walk(mem, p, bits[..|bits| - 1])
  }

  function LastBit(bits: seq<bool>): bool {
    bits != [] && bits[|bits| - 1]
  }

  /** In the new memory one edge of the parent leads to q, and these nodes are
      otherwise as they were. */
  ghost predicate Rewired(mem: Mem, mem1: Mem, cells: set<nat>, parent: nat, b: bool, q: nat) {
    forall c :: c in cells ==> c in mem && c in mem1 && mem1[c] == if c == parent then WithEdge(mem[c], b, q) else mem[c]
  }

  /** The node whose edge a path ends with lies outside. */
  lemma {:induction false} ParentAt(mem: Mem, p: nat, t: PT.Trie, bits: seq<bool>)
    requires Rep(mem, p, t) && Through(t, bits) && bits != []
    ensures p in mem && Parent(mem, p, bits) in Outside(mem, p, t, bits)
    ensures |bits| == 1 ==> Parent(mem, p, bits) == p && LastBit(bits) == bits[0]
    ensures var child, sub, rest := EdgeOf(mem[p], bits[0]), PT.Edge(t, bits[0]), bits[1..];
            |bits| > 1 ==> Parent(mem, p, bits) == Parent(mem, child, rest) && Parent(mem, child, rest) in Outside(mem, child, sub, rest) && LastBit(bits) == LastBit(rest)
    decreases |bits|
  {
    var rest, child, sub := bits[1..], EdgeOf(mem[p], bits[0]), PT.Edge(t, bits[0]);
    RepSub(mem, child, sub, rest);
    if |bits| > 1 {
      ParentAt(mem, child, sub, rest);
      assert bits[..|bits| - 1][1..] == rest[..|rest| - 1];
    }
  }

  lemma OutsideStep(mem: Mem, p: nat, t: PT.Trie, bits: seq<bool>)
    requires Rep(mem, p, t) && Through(t, bits) && bits != []
    ensures p in mem
    ensures var b := bits[0];
            Outside(mem, p, t, bits) == {p} + Cells(mem, EdgeOf(mem[p], !b), PT.Edge(t, !b)) + Outside(mem, EdgeOf(mem[p], b), PT.Edge(t, b), bits[1..])
  {
    RepSub(mem, EdgeOf(mem[p], bits[0]), PT.Edge(t, bits[0]), bits[1..]);
  }

  /** Rewriting the edge at the end of a path replaces the subtrie there. */
  lemma {:induction false} ReplaceRep(mem: Mem, mem1: Mem, p: nat, t: PT.Trie, bits: seq<bool>, q: nat, v: PT.Trie)
    requires Rep(mem, p, t) && Through(t, bits)
    requires Rewired(mem, mem1, Outside(mem, p, t, bits), Parent(mem, p, bits), LastBit(bits), q)
    requires Rep(mem1, q, v) && Cells(mem1, q, v) !! Outside(mem, p, t, bits)
    ensures var p1 := if bits == [] then q else p;
            Rep(mem1, p1, ReplaceAt(t, bits, v)) && Cells(mem1, p1, ReplaceAt(t, bits, v)) == Outside(mem, p, t, bits) + Cells(mem1, q, v)
    decreases |bits|
  {
    hide Walk, Rep, Cells, EdgeOf, PT.Edge, PT.SetEdge, Outside, Parent, LastBit;
    if bits == [] {
      NothingOutside(mem, p, t);
    } else {
      var b, rest := bits[0], bits[1..];
      Apart(mem, p, t, b);
      Apart(mem, p, t, !b);
      var child, other, sub, oth := EdgeOf(mem[p], b), EdgeOf(mem[p], !b), PT.Edge(t, b), PT.Edge(t, !b);
      ParentAt(mem, p, t, bits);
      OutsideStep(mem, p, t, bits);
      OutsideIn(mem, child, sub, rest);
      NothingOutside(mem, child, sub);
      ReplaceRep(mem, mem1, child, sub, rest, q, v);
      RepFrame(mem, mem1, other, oth);
      var t1 := ReplaceAt(sub, rest, v);
      Edges(mem[p], b, q, t, t1);
      Joined(mem1, p, PT.SetEdge(t, b, t1), b);
    }
  }

  lemma NothingOutside(mem: Mem, p: nat, t: PT.Trie)
    ensures Outside(mem, p, t, []) == {}
  {
  }

  lemma OutsideIn(mem: Mem, p: nat, t: PT.Trie, bits: seq<bool>)
    ensures Outside(mem, p, t, bits) <= Cells(mem, p, t)
  {
  }

  /** Setting one edge and reading both. */
  lemma Edges(c: Cell, b: bool, q: nat, t: PT.Trie, t1: PT.Trie)
    requires t.Node?
    ensures EdgeOf(WithEdge(c, b, q), b) == q && EdgeOf(WithEdge(c, b, q), !b) == EdgeOf(c, !b)
    ensures PT.Edge(PT.SetEdge(t, b, t1), b) == t1 && PT.Edge(PT.SetEdge(t, b, t1), !b) == PT.Edge(t, !b)
    ensures var s := PT.SetEdge(t, b, t1); s.Node? && s.prefix == t.prefix && s.nbits == t.nbits && s.nRules == t.nRules
  {
  }

  /** A node over two tries that share nothing. */
  lemma Joined(mem: Mem, p: nat, t: PT.Trie, b: bool)
    requires t.Node? && p != 0 && p in mem && mem[p].prefix == t.prefix && mem[p].nbits == t.nbits && mem[p].nRules == t.nRules
    requires Rep(mem, EdgeOf(mem[p], b), PT.Edge(t, b)) && Rep(mem, EdgeOf(mem[p], !b), PT.Edge(t, !b))
    requires p !in Cells(mem, EdgeOf(mem[p], b), PT.Edge(t, b)) && p !in Cells(mem, EdgeOf(mem[p], !b), PT.Edge(t, !b))
    requires Cells(mem, EdgeOf(mem[p], b), PT.Edge(t, b)) !! Cells(mem, EdgeOf(mem[p], !b), PT.Edge(t, !b))
    ensures Rep(mem, p, t)
    ensures Cells(mem, p, t) == {p} + Cells(mem, EdgeOf(mem[p], b), PT.Edge(t, b)) + Cells(mem, EdgeOf(mem[p], !b), PT.Edge(t, !b))
  {
  }

  // ------------------------------------------------ removal

  /** The trie after the subtrie at the end of a path became v: while it is
      empty the node above loses that edge and may be pruned in turn. */
  ghost function Up(t: PT.Trie, bits: seq<bool>, v: PT.Trie): PT.Trie
    requires Through(t, bits)
    decreases |bits|
  {
    if bits == [] || v.Node? then ReplaceAt(t, bits, v)
    else
      var n := |bits| - 1;
      ThroughPart(t, bits, n);
      Up(t, bits[..n], PT.Prune(PT.SetEdge(Sub(t, bits[..n]), bits[n], PT.Nil)))
  }

  lemma {:induction false} ReplacedAt(t: PT.Trie, bits: seq<bool>, w: PT.Trie, v: PT.Trie)
    requires Through(t, bits)
    ensures Through(ReplaceAt(t, bits, w), bits) && Sub(ReplaceAt(t, bits, w), bits) == w
    ensures ReplaceAt(ReplaceAt(t, bits, w), bits, v) == ReplaceAt(t, bits, v)
    decreases |bits|
  {
    if bits != [] {
      ReplacedAt(PT.Edge(t, bits[0]), bits[1..], w, v);
    }
  }

  lemma {:induction false} ReplacedSame(t: PT.Trie, bits: seq<bool>)
    requires Through(t, bits)
    ensures ReplaceAt(t, bits, Sub(t, bits)) == t
    decreases |bits|
  {
    if bits != [] {
      ReplacedSame(PT.Edge(t, bits[0]), bits[1..]);
    }
  }

  /** The last edge of a path set. */
  lemma LastEdge(t: PT.Trie, bits: seq<bool>, v: PT.Trie)
    requires Through(t, bits) && bits != []
    ensures var n := |bits| - 1;
            && Through(t, bits[..n]) && Sub(t, bits[..n]).Node?
            && ReplaceAt(t, bits, v) == ReplaceAt(t, bits[..n], PT.SetEdge(Sub(t, bits[..n]), bits[n], v))
  {
    hide Through, Sub, ReplaceAt, PT.SetEdge;
    var n := |bits| - 1;
    ThroughPart(t, bits, n);
    Longer(t, bits[..n], bits[n], v);
    assert bits[..n] + [bits[n]] == bits;
  }

  /** What is pruned does not depend on what was at the end of the path. */
  lemma {:induction false} UpReplaced(t: PT.Trie, bits: seq<bool>, w: PT.Trie, v: PT.Trie)
    requires Through(t, bits)
    ensures Through(ReplaceAt(t, bits, w), bits) && Up(ReplaceAt(t, bits, w), bits, v) == Up(t, bits, v)
    decreases |bits|
  {
    hide Through, Sub, ReplaceAt, PT.Prune;
    ReplacedAt(t, bits, w, v);
    if bits != [] && v.Nil? {
      var n := |bits| - 1;
      LastEdge(t, bits, w);
      var w1 := PT.SetEdge(Sub(t, bits[..n]), bits[n], w);
      ReplacedAt(t, bits[..n], w1, v);
      UpReplaced(t, bits[..n], w1, PT.Prune(PT.SetEdge(w1, bits[n], PT.Nil)));
    }
  }

  /** One step of the pruning. */
  lemma UpStep(t: PT.Trie, bits: seq<bool>)
    requires Through(t, bits) && bits != []
    ensures var n := |bits| - 1; var t1 := ReplaceAt(t, bits, PT.Nil);
            && Through(t1, bits[..n]) && Sub(t1, bits[..n]).Node?
            && Up(t, bits, PT.Nil) == Up(t1, bits[..n], PT.Prune(Sub(t1, bits[..n])))
  {
    hide Through, Sub, ReplaceAt, PT.Prune;
    var n := |bits| - 1;
    LastEdge(t, bits, PT.Nil);
    var w := PT.SetEdge(Sub(t, bits[..n]), bits[n], PT.Nil);
    ReplacedAt(t, bits[..n], w, w);
    UpReplaced(t, bits[..n], w, PT.Prune(w));
  }

  lemma UpLonger(t: PT.Trie, bits: seq<bool>, b: bool, v: PT.Trie)
    requires Through(t, bits) && Sub(t, bits).Node?
    ensures Through(t, bits + [b])
    ensures var u := Sub(t, bits);
            Up(t, bits + [b], v) == Up(t, bits, if v.Nil? then PT.Prune(PT.SetEdge(u, b, PT.Nil)) else PT.SetEdge(u, b, v))
  {
    hide Through, Sub, ReplaceAt, PT.Prune;
    Longer(t, bits, b, v);
    assert (bits + [b])[..|bits + [b]| - 1] == bits;
  }

  /** The places of the edges along a path, as the removal stacks them. */
  ghost predicate Stack(mem: Mem, root: nat, bits: seq<bool>, edges: seq<(nat, bool)>) {
    |edges| > |bits| && forall i :: 0 <= i <= |bits| ==> edges[i] == (Parent(mem, root, bits[..i]), LastBit(bits[..i]))
  }

  lemma {:induction false} WalkKept(mem: Mem, mem1: Mem, p: nat, t: PT.Trie, bits: seq<bool>, q: nat, i: nat)
    requires Rep(mem, p, t) && Through(t, bits) && i < |bits|
    requires Rewired(mem, mem1, Outside(mem, p, t, bits), Parent(mem, p, bits), LastBit(bits), q)
    ensures Walk(mem1, p, bits[..i]) == Walk(mem, p, bits[..i])
    decreases |bits|
  {
    hide Rep, Cells, Outside, Parent, LastBit, EdgeOf, PT.Edge;
    if i > 0 {
      var b, rest := bits[0], bits[1..];
      Apart(mem, p, t, b);
      ParentAt(mem, p, t, bits);
      OutsideStep(mem, p, t, bits);
      var child, sub := EdgeOf(mem[p], b), PT.Edge(t, b);
      OutsideIn(mem, child, sub, rest);
      WalkKept(mem, mem1, child, sub, rest, q, i - 1);
      assert bits[..i][0] == b && bits[..i][1..] == rest[..i - 1];
    }
  }

  lemma StackKept(mem: Mem, mem1: Mem, root: nat, root1: nat, t: PT.Trie, bits: seq<bool>, q: nat, edges: seq<(nat, bool)>)
    requires Rep(mem, root, t) && Through(t, bits) && Stack(mem, root, bits, edges)
    requires Rewired(mem, mem1, Outside(mem, root, t, bits), Parent(mem, root, bits), LastBit(bits), q)
    requires bits != [] ==> root1 == root
    ensures Stack(mem1, root1, bits, edges)
  {
    hide Rep, Outside, Walk, Through, Rewired;
    forall i | 0 <= i <= |bits| ensures Parent(mem1, root1, bits[..i]) == Parent(mem, root, bits[..i]) {
      if i > 0 {
        WalkKept(mem, mem1, root, t, bits, q, i - 1);
        assert bits[..i][..i - 1] == bits[..i - 1];
      }
    }
  }

  lemma StackShorter(mem: Mem, root: nat, bits: seq<bool>, edges: seq<(nat, bool)>)
    requires Stack(mem, root, bits, edges) && bits != []
    ensures Stack(mem, root, bits[..|bits| - 1], edges)
  {
    hide Parent, LastBit;
    var n := |bits| - 1;
    forall i | 0 <= i <= n ensures bits[..n][..i] == bits[..i] {
    }
  }

  lemma RemoveUnfold(u: PT.Trie, c: Cell, pr: seq<Word>, ofs: nat, mlen: nat)
    requires u.Node? && c.prefix == u.prefix && c.nbits == u.nbits && c.nRules == u.nRules && ofs < mlen <= 32 * |pr|
    ensures var eq := PT.TriePrefixEqualBits(Fields(c), pr, ofs, mlen);
            && eq <= u.nbits && ofs + eq <= mlen
            && (eq < u.nbits ==> !PT.Remove(u, pr, ofs, mlen).found)
            && (eq == u.nbits && ofs + eq == mlen && u.nRules == 0 ==> !PT.Remove(u, pr, ofs, mlen).found)
            && (eq == u.nbits && ofs + eq == mlen && u.nRules > 0 ==>
                  PT.Remove(u, pr, ofs, mlen) == PT.Removal(true, PT.Prune(u.(nRules := u.nRules - 1))))
            && (eq == u.nbits && ofs + eq < mlen ==>
                  var b := Words.Bits(pr)[ofs + eq];
                  var r := PT.Remove(PT.Edge(u, b), pr, ofs + eq, mlen);
                  && PT.Remove(u, pr, ofs, mlen).found == r.found
                  && (r.found ==> PT.Remove(u, pr, ofs, mlen).trie == if r.trie.Nil? then PT.Prune(PT.SetEdge(u, b, PT.Nil)) else PT.SetEdge(u, b, r.trie)))
  {
    hide PT.Prune, Words.Bits, PT.PrefixEqualBits;
  }

  /** Removing from the trie comes down to removing at the end of the path. */
  ghost predicate Comes(t: PT.Trie, bits: seq<bool>, u: PT.Trie, pr: seq<Word>, ofs: nat, mlen: nat)
    requires ofs < mlen <= 32 * |pr| && Through(t, bits)
  {
    var whole, r := PT.Remove(t, pr, 0, mlen), PT.Remove(u, pr, ofs, mlen);
    whole.found == r.found && (r.found ==> whole.trie == Up(t, bits, r.trie))
  }

  lemma NotFound(t: PT.Trie, pr: seq<Word>, ofs: nat, mlen: nat)
    requires ofs < mlen <= 32 * |pr| && !PT.Remove(t, pr, ofs, mlen).found
    ensures PT.Remove(t, pr, ofs, mlen).trie == t
  {
    hide PT.TriePrefixEqualBits, Words.Bits, PT.Prune;
  }

  /** The entries a walk takes from a node on, read from its cell. */
  lemma SameEntries(u: PT.Trie, c: Cell, pr: seq<Word>, ofs: nat, mlen: nat)
    requires u.Node? && c.prefix == u.prefix && c.nbits == u.nbits && ofs < mlen <= 32 * |pr|
    ensures var eq := PT.TriePrefixEqualBits(Fields(c), pr, ofs, mlen);
            && (eq < u.nbits || ofs + eq == mlen ==> TS.Entries(u, pr, ofs, mlen) == 1)
            && (eq == u.nbits && ofs + eq < mlen ==>
                  TS.Entries(u, pr, ofs, mlen) == 1 + TS.Entries(PT.Edge(u, Words.Bits(pr)[ofs + eq]), pr, ofs + eq, mlen))
  {
    hide Words.Bits, PT.PrefixEqualBits, TS.Entries;
    TS.EntriesUnfold(u, pr, ofs, mlen);
  }

  lemma Goal(t: PT.Trie, bits: seq<bool>, u: PT.Trie, pr: seq<Word>, ofs: nat, mlen: nat)
    requires ofs < mlen <= 32 * |pr| && Through(t, bits) && Comes(t, bits, u, pr, ofs, mlen)
    ensures var whole, r := PT.Remove(t, pr, 0, mlen), PT.Remove(u, pr, ofs, mlen);
            whole.found == r.found && (r.found ==> whole.trie == Up(t, bits, r.trie)) && (!r.found ==> whole.trie == t)
  {
    hide PT.Remove, Up, Through;
    if !PT.Remove(u, pr, ofs, mlen).found {
      NotFound(t, pr, 0, mlen);
    }
  }

  /** One node further down. */
  lemma Further(t: PT.Trie, bits: seq<bool>, u: PT.Trie, c: Cell, pr: seq<Word>, ofs: nat, mlen: nat)
    requires u.Node? && c.prefix == u.prefix && c.nbits == u.nbits && c.nRules == u.nRules
    requires ofs < mlen <= 32 * |pr| && Through(t, bits) && u == Sub(t, bits) && Comes(t, bits, u, pr, ofs, mlen)
    requires ofs + u.nbits < mlen && PT.TriePrefixEqualBits(Fields(c), pr, ofs, mlen) == u.nbits
    ensures var b := Words.Bits(pr)[ofs + u.nbits];
            Through(t, bits + [b]) && Comes(t, bits + [b], PT.Edge(u, b), pr, ofs + u.nbits, mlen)
  {
    hide PT.Remove, Up, Through, Sub, PT.TriePrefixEqualBits, PT.Prune, Words.Bits;
    var b := Words.Bits(pr)[ofs + u.nbits];
    RemoveUnfold(u, c, pr, ofs, mlen);
    UpLonger(t, bits, b, PT.Remove(PT.Edge(u, b), pr, ofs + u.nbits, mlen).trie);
  }

  lemma StackLonger(mem: Mem, root: nat, t: PT.Trie, bits: seq<bool>, u: PT.Trie, node: nat, b: bool, edges: seq<(nat, bool)>)
    requires At(mem, root, t, bits, u, node) && u.Node? && node in mem && Stack(mem, root, bits, edges) && |edges| == |bits| + 1
    ensures At(mem, root, t, bits + [b], PT.Edge(u, b), EdgeOf(mem[node], b)) && Stack(mem, root, bits + [b], edges + [(node, b)])
  {
    hide Parent, LastBit, At;
    var more := bits + [b];
    Onward(mem, root, t, bits, u, node, b, u);
    forall i | 0 <= i <= |more| ensures (edges + [(node, b)])[i] == (Parent(mem, root, more[..i]), LastBit(more[..i])) {
      if i <= |bits| {
        assert more[..i] == bits[..i];
      } else {
        assert more[..i] == more;
      }
    }
  }

  lemma NullAbsent(pr: seq<Word>, ofs: nat, mlen: nat)
    requires ofs < mlen <= 32 * |pr|
    ensures !PT.Remove(PT.Nil, pr, ofs, mlen).found
  {
  }

  lemma WalkEnd(mem: Mem, mem1: Mem, root: nat, t: PT.Trie, bits: seq<bool>, node: nat)
    requires Rep(mem, root, t) && Through(t, bits) && node == Walk(mem, root, bits)
    requires Kept(mem, mem1, Outside(mem, root, t, bits))
    ensures Rewired(mem, mem1, Outside(mem, root, t, bits), Parent(mem, root, bits), LastBit(bits), node)
    ensures Walk(mem1, root, bits) == node
  {
    hide Rep, Cells, Outside, Sub;
    if bits == [] {
      NothingOutside(mem, root, t);
    } else {
      var n := |bits| - 1;
      EdgeAt(mem, root, t, bits);
      EdgeItself(mem[Parent(mem, root, bits)], LastBit(bits));
      ParentAt(mem, root, t, bits);
      WalkKept(mem, mem1, root, t, bits, node, n);
      WalkLast(mem1, root, bits);
    }
  }

  lemma {:induction false} WalkLast(mem: Mem, p: nat, bits: seq<bool>)
    requires bits != [] && Walk(mem, p, bits[..|bits| - 1]) in mem
    ensures Walk(mem, p, bits) == EdgeOf(mem[Walk(mem, p, bits[..|bits| - 1])], bits[|bits| - 1])
    decreases |bits|
  {
    var n := |bits| - 1;
    if n == 0 {
      assert bits[1..] == [];
    } else {
      assert bits[..n][0] == bits[0] && bits[..n][1..] == bits[1..][..n - 1];
      if p in mem {
        WalkLast(mem, EdgeOf(mem[p], bits[0]), bits[1..]);
      }
    }
  }

  /** The pointer an entry of the stack refers to. */
  function EdgeTarget(mem: Mem, root: nat, edge: (nat, bool)): nat {
    if edge.0 in mem then EdgeOf(mem[edge.0], edge.1) else root
  }

  /** 'next' is the only child of a node, or null if there is none. */
  ghost predicate OnlyEdge(c: Cell, u: PT.Trie, next: nat) {
    && u.Node? && (u.e0.Node? <==> c.e0 != 0) && (u.e1.Node? <==> c.e1 != 0) && !(c.e0 != 0 && c.e1 != 0)
    && next == if c.e0 != 0 then c.e0 else c.e1
  }

  lemma OneChild(mem: Mem, root: nat, t: PT.Trie, bits: seq<bool>, u: PT.Trie, node: nat, next: nat)
    requires At(mem, root, t, bits, u, node) && u.Node? && node in mem
    requires mem[node].nRules == 0 && !(mem[node].e0 != 0 && mem[node].e1 != 0)
    requires next == if mem[node].e0 != 0 then mem[node].e0 else mem[node].e1
    ensures OnlyEdge(mem[node], u, next) && mem[node].nbits == u.nbits
    ensures next == 0 ==> PT.IsLeaf(u) && PT.Prune(u) == PT.Nil
    ensures var v := if u.e0.Node? then u.e0 else u.e1;
            next != 0 ==> next in mem && v.Node? && mem[next].nbits == v.nbits && PT.Prune(u).Node? && PT.Prune(u) == if u.nbits + v.nbits > 32 then u else PT.Merged(u, v)
  {
    hide Walk, Sub, Through;
    RepSub(mem, root, t, bits);
  }

  /** A node with rules or two children stays. */
  lemma Needed(mem: Mem, root: nat, t: PT.Trie, bits: seq<bool>, u: PT.Trie, node: nat)
    requires At(mem, root, t, bits, u, node) && u.Node? && node in mem && (mem[node].nRules > 0 || (mem[node].e0 != 0 && mem[node].e1 != 0))
    ensures PT.Prune(u) == u
  {
    hide PT.Merged, Walk, Sub, Through;
    RepSub(mem, root, t, bits);
  }

  lemma UpNode(t: PT.Trie, bits: seq<bool>, v: PT.Trie)
    requires Through(t, bits) && v.Node?
    ensures Up(t, bits, v) == ReplaceAt(t, bits, v)
  {
  }

  lemma UpRoot(t: PT.Trie)
    ensures Through(t, []) && Up(t, [], PT.Nil) == ReplaceAt(t, [], PT.Nil)
  {
  }

  lemma AtThrough(mem: Mem, root: nat, t: PT.Trie, bits: seq<bool>, u: PT.Trie, node: nat)
    requires At(mem, root, t, bits, u, node)
    ensures Through(t, bits) && u == Sub(t, bits)
  {
  }

  lemma ReplacedSelf(mem: Mem, root: nat, t: PT.Trie, bits: seq<bool>, u: PT.Trie, node: nat)
    requires At(mem, root, t, bits, u, node)
    ensures ReplaceAt(t, bits, u) == t
  {
    ReplacedSame(t, bits);
  }

  /** Freeing a leaf. */
  lemma LeafGone(mem: Mem, mem1: Mem, root: nat, t: PT.Trie, bits: seq<bool>, u: PT.Trie, node: nat)
    requires At(mem, root, t, bits, u, node) && u.Node? && PT.IsLeaf(u) && mem1 == mem - {node} && mem.Keys == Cells(mem, root, t)
    ensures Rep(mem1, 0, PT.Nil) && Cells(mem1, 0, PT.Nil) == {}
    ensures Kept(mem, mem1, Outside(mem, root, t, bits)) && mem1.Keys == Outside(mem, root, t, bits)
  {
    hide Walk, Sub, Through;
    RepSub(mem, root, t, bits);
    assert Cells(mem, node, u) == {node};
  }

  /** A node's bits moved down into its only child, and the node freed. */
  lemma MergedRep(mem: Mem, mem1: Mem, root: nat, t: PT.Trie, bits: seq<bool>, u: PT.Trie, node: nat, next: nat, v: PT.Trie)
    requires At(mem, root, t, bits, u, node) && u.Node? && node in mem && next in mem && next != 0 && OnlyEdge(mem[node], u, next)
    requires v == (if u.e0.Node? then u.e0 else u.e1) && mem[node].nbits + mem[next].nbits <= 32 && mem.Keys == Cells(mem, root, t)
    requires mem1 == mem[next := mem[next].(prefix := Or(mem[node].prefix, Shr(mem[next].prefix, mem[node].nbits)), nbits := mem[node].nbits + mem[next].nbits)] - {node}
    ensures v.Node? && u.nbits + v.nbits <= 32
    ensures Rep(mem1, next, PT.Merged(u, v)) && Cells(mem1, next, PT.Merged(u, v)) !! Outside(mem, root, t, bits)
    ensures Kept(mem, mem1, Outside(mem, root, t, bits)) && mem1.Keys == Outside(mem, root, t, bits) + Cells(mem1, next, PT.Merged(u, v))
  {
    hide Rep, Cells, Walk, Sub, Through, Or, Shr;
    RepSub(mem, root, t, bits);
    OnlyChild(mem, node, u, next, v);
    RewrittenNode(mem, mem1, next, v, PT.Merged(u, v));
  }

  lemma OnlyChild(mem: Mem, node: nat, u: PT.Trie, next: nat, v: PT.Trie)
    requires Rep(mem, node, u) && u.Node? && node in mem && next in mem && next != 0 && OnlyEdge(mem[node], u, next)
    requires v == if u.e0.Node? then u.e0 else u.e1
    ensures v.Node? && Rep(mem, next, v) && mem[node].prefix == u.prefix && mem[node].nbits == u.nbits
    ensures mem[next].prefix == v.prefix && mem[next].nbits == v.nbits && mem[next].nRules == v.nRules
    ensures Cells(mem, node, u) == {node} + Cells(mem, next, v) && node !in Cells(mem, next, v) && next != node
  {
    var other := if u.e0.Node? then u.e1 else u.e0;
    assert other.Nil?;
    assert Cells(mem, mem[node].e0, u.e0) + Cells(mem, mem[node].e1, u.e1) == Cells(mem, next, v);
  }

  // ------------------------------------------------ the updates

  /** The node's own fields as the value has them. */
  function Fields(c: Cell): PT.Trie {
    PT.Node(c.prefix, c.nbits, c.nRules, PT.Nil, PT.Nil)
  }

  class Memory {
    var root: nat
    var mem: Mem
    var next: nat

    /** Addresses come in order and are not used again. */
    ghost predicate Sane()
      reads this
    {
      next > 0 && forall p :: p in mem ==> 0 < p < next
    }

    /** The value of the trie; its nodes and no others are allocated. */
    ghost predicate Valid(t: PT.Trie)
      reads this
    {
      Sane() && Rep(mem, root, t) && mem.Keys == Cells(mem, root, t)
    }

    constructor ()
      ensures Valid(PT.Nil)
    {
      root, mem, next := 0, map[], 1;
    }

    method Allocate(c: Cell) returns (p: nat)
      requires Sane()
      modifies this`mem, this`next
      ensures Sane() && p != 0 && p !in old(mem) && mem == old(mem)[p := c]
    {
      p := next;
      mem, next := mem[p := c], next + 1;
    }

    /** trie_branch_create. */
    method BranchCreate(pr: seq<Word>, ofs: nat, plen: nat, nRules: nat) returns (p: nat)
      requires Sane() && ofs + plen <= 32 * |pr|
      modifies this`mem, this`next
      ensures Sane() && old(mem.Keys) <= mem.Keys && forall c :: c in old(mem) ==> mem[c] == old(mem)[c]
      ensures Rep(mem, p, PT.BranchCreate(pr, ofs, plen, nRules))
      ensures Cells(mem, p, PT.BranchCreate(pr, ofs, plen, nRules)) == mem.Keys - old(mem.Keys)
      decreases plen
    {
      hide Words.Bits, PT.TrieGetPrefix, Rep, Cells;
      var prefix := PT.TrieGetPrefix(pr, ofs, plen);
      if plen <= PT.TRIE_PREFIX_BITS {
        p := Allocate(Cell(prefix, plen, nRules, 0, 0));
        LeafRep(mem, p);
      } else {
        var sub := BranchCreate(pr, ofs + PT.TRIE_PREFIX_BITS, plen - PT.TRIE_PREFIX_BITS, nRules);
        ghost var t, mem0 := PT.BranchCreate(pr, ofs + PT.TRIE_PREFIX_BITS, plen - PT.TRIE_PREFIX_BITS, nRules), mem;
        Apart(mem, sub, t, true);
        var bit := mem[sub].prefix[0];
        p := Allocate(WithEdge(Cell(prefix, PT.TRIE_PREFIX_BITS, 0, 0, 0), bit, sub));
        CellsIn(mem0, sub, t);
        RepFrame(mem0, mem, sub, t);
        OneEdge(mem, p, prefix, bit, sub, t);
      }
    }

    /** Store the subtrie at q in the edge that a path ends with. */
    method Link(parent: nat, bit: bool, q: nat, ghost mem0: Mem, ghost t: PT.Trie, ghost bits: seq<bool>, ghost v: PT.Trie)
      requires Sane() && Rep(mem0, root, t) && Through(t, bits)
      requires parent == Parent(mem0, root, bits) && bit == LastBit(bits)
      requires Kept(mem0, mem, Outside(mem0, root, t, bits))
      requires Rep(mem, q, v) && Cells(mem, q, v) !! Outside(mem0, root, t, bits)
      requires mem.Keys == Outside(mem0, root, t, bits) + Cells(mem, q, v)
      modifies this`root, this`mem
      ensures Valid(ReplaceAt(t, bits, v))
      ensures Rewired(mem0, mem, Outside(mem0, old(root), t, bits), parent, bit, q) && root == if bits == [] then q else old(root)
    {
      hide Rep, Cells, Walk, Outside, LastBit, EdgeOf, WithEdge;
      if bits != [] {
        ParentAt(mem0, root, t, bits);
      }
      if parent == 0 {
        ReplaceRep(mem0, mem, root, t, bits, q, v);
        root := q;
      } else {
        ghost var mem1 := mem;
        mem := mem[parent := WithEdge(mem[parent], bit, q)];
        RepFrame(mem1, mem, q, v);
        ReplaceRep(mem0, mem, root, t, bits, q, v);
      }
    }

    /** trie_insert_prefix. */
    method InsertPrefix(pr: seq<Word>, mlen: nat, ghost t: PT.Trie)
      requires Valid(t) && 0 < mlen <= 32 * |pr|
      modifies this
      ensures Valid(PT.Insert(t, pr, 0, mlen))
    {
      hide Memory.Valid, At, Words.Bits, PT.TriePrefixEqualBits, PT.Insert, PT.Split, PT.BranchCreate, Parent, LastBit, EdgeOf, ReplaceAt;
      var parent, bit, node, ofs := 0, false, root, 0;
      ghost var bits, u, v := [], t, PT.Insert(t, pr, 0, mlen);
      Start(t, v);
      while node != 0
        invariant Valid(t) && Standing(t, bits, u, node, parent, bit)
        invariant ofs < mlen && v == ReplaceAt(t, bits, PT.Insert(u, pr, ofs, mlen))
        decreases u
      {
        AtNode(mem, root, t, bits, u, node);
        var eqbits := PT.TriePrefixEqualBits(Fields(mem[node]), pr, ofs, mlen);
        InsertUnfold(u, mem[node], pr, ofs, mlen);
        if eqbits < mem[node].nbits {
          SplitNode(parent, bit, node, pr, ofs, mlen, eqbits, t, bits, u);
          return;
        }
        if ofs + eqbits == mlen {
          AddRule(parent, bit, node, t, bits, u);
          return;
        }
        ofs := ofs + eqbits;
        var b := Words.Bits(pr)[ofs];
        Onward(mem, root, t, bits, u, node, b, PT.Insert(PT.Edge(u, b), pr, ofs, mlen));
        parent, bit, node := node, b, EdgeOf(mem[node], b);
        bits, u := bits + [b], PT.Edge(u, b);
      }
      InsertAtNull(pr, ofs, mlen);
      AddBranch(parent, bit, pr, ofs, mlen, t, bits, u);
    }

    /** A mismatch inside a node: a new node goes above it. */
    method SplitNode(parent: nat, bit: bool, node: nat, pr: seq<Word>, ofs: nat, mlen: nat, eqbits: nat, ghost t: PT.Trie, ghost bits: seq<bool>, ghost u: PT.Trie)
      requires Valid(t) && Standing(t, bits, u, node, parent, bit) && u.Node? && node in mem
      requires eqbits < u.nbits && ofs + eqbits <= mlen <= 32 * |pr|
      modifies this
      ensures Valid(ReplaceAt(t, bits, PT.Split(u, pr, ofs, mlen, eqbits)))
    {
      hide Rep, Cells, Walk, Outside, Through, Sub, Parent, LastBit, ReplaceAt, Words.Bits, Shl, PT.BranchCreate, PT.Split, PT.Fork, PT.TrieGetPrefix, WithEdge, EdgeOf;
      AtNode(mem, root, t, bits, u, node);
      ghost var mem0 := mem;
      var q, fork := Above(node, pr, ofs, mlen, eqbits);
      SplitRep(mem0, mem, root, t, bits, u, node, q, fork, pr, ofs, mlen, eqbits);
      Link(parent, bit, q, mem0, t, bits, PT.Split(u, pr, ofs, mlen, eqbits));
    }

    method Above(node: nat, pr: seq<Word>, ofs: nat, mlen: nat, eqbits: nat) returns (q: nat, fork: nat)
      requires Sane() && node in mem && eqbits < mem[node].nbits && ofs + eqbits <= mlen <= 32 * |pr|
      modifies this`mem, this`next
      ensures Sane() && node in mem && mem[node] == old(mem)[node].(prefix := Shl(old(mem)[node].prefix, eqbits), nbits := old(mem)[node].nbits - eqbits)
      ensures Kept(old(mem), mem, old(mem.Keys) - {node}) && q != 0 && q in mem && q !in old(mem)
      ensures var b := old(mem)[node].prefix[eqbits];
              mem[q] == WithEdge(WithEdge(Cell(PT.TrieGetPrefix(pr, ofs, eqbits), eqbits, if ofs + eqbits == mlen then 1 else 0, 0, 0), b, node), !b, fork)
      ensures Rep(mem, fork, PT.Fork(pr, ofs + eqbits, mlen))
      ensures Cells(mem, fork, PT.Fork(pr, ofs + eqbits, mlen)) == mem.Keys - old(mem.Keys) - {q}
    {
      hide Rep, Cells, Words.Bits, Shl, PT.Fork, PT.TrieGetPrefix, WithEdge, EdgeOf;
      var oldBranch := mem[node].prefix[eqbits];
      q := NewNode(pr, ofs, eqbits, if ofs + eqbits == mlen then 1 else 0);
      mem := mem[node := mem[node].(prefix := Shl(mem[node].prefix, eqbits), nbits := mem[node].nbits - eqbits)];
      OtherEdge(mem[q], oldBranch, node);
      mem := mem[q := WithEdge(mem[q], oldBranch, node)];
      fork := ForkNode(q, !oldBranch, pr, ofs + eqbits, mlen);
    }

    method NewNode(pr: seq<Word>, ofs: nat, plen: nat, nRules: nat) returns (p: nat)
      requires Sane() && ofs + plen <= 32 * |pr| && plen <= PT.TRIE_PREFIX_BITS
      modifies this`mem, this`next
      ensures Sane() && p != 0 && p !in old(mem) && mem == old(mem)[p := Cell(PT.TrieGetPrefix(pr, ofs, plen), plen, nRules, 0, 0)]
    {
      hide Words.Bits, PT.TrieGetPrefix;
      p := BranchCreate(pr, ofs, plen, nRules);
      assert Cells(mem, p, PT.BranchCreate(pr, ofs, plen, nRules)) == {p};
      assert mem.Keys == old(mem.Keys) + {p};
    }

    /** The other edge of a new node. */
    method ForkNode(q: nat, b: bool, pr: seq<Word>, ofs: nat, mlen: nat) returns (fork: nat)
      requires Sane() && q in mem && EdgeOf(mem[q], b) == 0 && ofs <= mlen <= 32 * |pr|
      modifies this`mem, this`next
      ensures Sane() && old(mem.Keys) <= mem.Keys && forall c :: c in old(mem) ==> mem[c] == if c == q then WithEdge(old(mem)[q], b, fork) else old(mem)[c]
      ensures Rep(mem, fork, PT.Fork(pr, ofs, mlen)) && Cells(mem, fork, PT.Fork(pr, ofs, mlen)) == mem.Keys - old(mem.Keys)
    {
      hide Rep, Cells, Words.Bits, PT.BranchCreate;
      if ofs < mlen {
        fork := BranchCreate(pr, ofs, mlen - ofs, 1);
        ghost var mem1 := mem;
        mem := mem[q := WithEdge(mem[q], b, fork)];
        RepFrame(mem1, mem, fork, PT.Fork(pr, ofs, mlen));
      } else {
        fork := 0;
        NullRep(mem);
      }
    }

    /** trie_remove_prefix.  The stack has an entry for the root pointer and one
        for each node passed; the source has room for 128. */
    method RemovePrefix(pr: seq<Word>, mlen: nat, ghost t: PT.Trie) returns (found: bool, ghost entries: nat)
      requires Valid(t) && 0 < mlen <= 32 * |pr|
      modifies this
      ensures found == PT.Remove(t, pr, 0, mlen).found && Valid(PT.Remove(t, pr, 0, mlen).trie)
      ensures entries == TS.Entries(t, pr, 0, mlen)
      ensures PT.Ok(t, true, 32 * |pr|) && |pr| <= TS.WIDEST ==>
                (entries > TS.ROOM <==> mlen == TS.ROOM && TS.Comb(t, PT.Rest(pr, 0, mlen)))
    {
      hide Memory.Valid, At, Words.Bits, PT.TriePrefixEqualBits, PT.Remove, Stack, EdgeOf, Comes, PT.Prune, PT.Ok, PT.Rest, TS.Entries, TS.Comb;
      entries := TS.Entries(t, pr, 0, mlen);
      if PT.Ok(t, true, 32 * |pr|) && |pr| <= TS.WIDEST {
        TS.EntriesExact(t, pr, mlen);
      }
      var edges, node, ofs := [(0, false)], root, 0;
      ghost var bits, u := [], t;
      StartRemoval(t, pr, mlen);
      while node != 0
        invariant Valid(t) && At(mem, root, t, bits, u, node) && Stack(mem, root, bits, edges)
        invariant |edges| == |bits| + 1 && ofs < mlen && entries == |bits| + TS.Entries(u, pr, ofs, mlen)
        invariant Through(t, bits) && Comes(t, bits, u, pr, ofs, mlen)
        decreases u
      {
        AtNode(mem, root, t, bits, u, node);
        var eqbits := PT.TriePrefixEqualBits(Fields(mem[node]), pr, ofs, mlen);
        RemoveUnfold(u, mem[node], pr, ofs, mlen);
        SameEntries(u, mem[node], pr, ofs, mlen);
        if eqbits < mem[node].nbits || (ofs + eqbits == mlen && mem[node].nRules == 0) {
          Goal(t, bits, u, pr, ofs, mlen);
          return false, |edges|;
        }
        if ofs + eqbits == mlen {
          Goal(t, bits, u, pr, ofs, mlen);
          DropRule(edges, node, t, bits, u);
          return true, |edges|;
        }
        ofs := ofs + eqbits;
        var b := Words.Bits(pr)[ofs];
        AtThrough(mem, root, t, bits, u, node);
        Further(t, bits, u, mem[node], pr, ofs - eqbits, mlen);
        StackLonger(mem, root, t, bits, u, node, b, edges);
        edges, node := edges + [(node, b)], EdgeOf(mem[node], b);
        bits, u := bits + [b], PT.Edge(u, b);
      }
      AtNull(mem, root, t, bits, u);
      NullAbsent(pr, ofs, mlen);
      TS.EntriesUnfold(u, pr, ofs, mlen);
      Goal(t, bits, u, pr, ofs, mlen);
      return false, |edges|;
    }

    lemma StartRemoval(t: PT.Trie, pr: seq<Word>, mlen: nat)
      requires Valid(t) && 0 < mlen <= 32 * |pr|
      ensures At(mem, root, t, [], t, root) && Stack(mem, root, [], [(0, false)]) && Comes(t, [], t, pr, 0, mlen)
    {
      hide Rep, Cells, PT.Remove;
    }

    /** A rule goes; nodes it leaves without purpose go with it. */
    method DropRule(edges: seq<(nat, bool)>, node: nat, ghost t: PT.Trie, ghost bits: seq<bool>, ghost u: PT.Trie)
      requires Valid(t) && At(mem, root, t, bits, u, node) && u.Node? && u.nRules > 0 && Stack(mem, root, bits, edges) && |edges| == |bits| + 1
      modifies this
      ensures Valid(Up(t, bits, PT.Prune(u.(nRules := u.nRules - 1))))
    {
      hide Rep, Cells, Walk, Outside, Parent, LastBit, ReplaceAt, Stack, Sub, Through, Up, PT.Prune, Rewired, Kept;
      AtNode(mem, root, t, bits, u, node);
      ghost var mem0, v := mem, u.(nRules := u.nRules - 1);
      mem := mem[node := mem[node].(nRules := mem[node].nRules - 1)];
      Rewritten(mem0, mem, root, t, bits, u, v, node);
      Unlinked(mem0, mem, root, t, bits, u, node, v);
      ReplacedAt(t, bits, v, v);
      UpReplaced(t, bits, v, PT.Prune(v));
      WalkEnd(mem0, mem, root, t, bits, node);
      StackKept(mem0, mem, root, root, t, bits, node, edges);
      PruneUp(edges, node, ReplaceAt(t, bits, v), bits, v);
    }

    /** Upward from a node: one that holds no rules and has at most one child
        goes away, and the next one is the one above it if nothing is left. */
    method PruneUp(edges: seq<(nat, bool)>, bottom: nat, ghost t: PT.Trie, ghost bits: seq<bool>, ghost u: PT.Trie)
      requires Valid(t) && At(mem, root, t, bits, u, bottom) && u.Node? && Stack(mem, root, bits, edges) && |edges| == |bits| + 1
      modifies this
      ensures Through(t, bits) && Valid(Up(t, bits, PT.Prune(u)))
    {
      hide Memory.Valid, At, Stack, Up, Through, PT.Prune, PT.Merged, EdgeTarget, ReplaceAt;
      AtThrough(mem, root, t, bits, u, bottom);
      var node, depth := bottom, |edges| - 1;
      ghost var goal, cur, path, w := Up(t, bits, PT.Prune(u)), t, bits, u;
      AtNode(mem, root, cur, path, w, node);
      while mem[node].nRules == 0 && !(mem[node].e0 != 0 && mem[node].e1 != 0)
        invariant |path| == depth < |edges| && Valid(cur) && At(mem, root, cur, path, w, node) && w.Node? && node in mem
        invariant Stack(mem, root, path, edges) && Through(cur, path) && goal == Up(cur, path, PT.Prune(w))
        decreases depth
      {
        var next := if mem[node].e0 != 0 then mem[node].e0 else mem[node].e1;
        OneChild(mem, root, cur, path, w, node, next);
        if next != 0 {
          if mem[node].nbits + mem[next].nbits > PT.TRIE_PREFIX_BITS {
            UpNode(cur, path, w);
            ReplacedSelf(mem, root, cur, path, w, node);
            return;
          }
          UpNode(cur, path, PT.Prune(w));
          Combine(edges, depth, node, next, cur, path, w);
          return;
        }
        Discard(edges, depth, node, cur, path, w);
        if depth == 0 {
          UpRoot(cur);
          return;
        }
        depth := depth - 1;
        Climb(cur, path, edges);
        node := EdgeTarget(mem, root, edges[depth]);
        cur, path := ReplaceAt(cur, path, PT.Nil), path[..depth];
        w := Sub(cur, path);
      }
      Needed(mem, root, cur, path, w, node);
      UpNode(cur, path, w);
      ReplacedSelf(mem, root, cur, path, w, node);
    }

    method Discard(edges: seq<(nat, bool)>, depth: nat, node: nat, ghost t: PT.Trie, ghost bits: seq<bool>, ghost u: PT.Trie)
      requires Valid(t) && At(mem, root, t, bits, u, node) && u.Node? && node in mem && PT.IsLeaf(u)
      requires Stack(mem, root, bits, edges) && depth == |bits|
      modifies this
      ensures Valid(ReplaceAt(t, bits, PT.Nil)) && Stack(mem, root, bits, edges)
    {
      hide Rep, Cells, Walk, Outside, Sub, Parent, LastBit, ReplaceAt, Rewired;
      ghost var mem0, root0 := mem, root;
      mem := mem - {node};
      LeafGone(mem0, mem, root, t, bits, u, node);
      assert bits[..depth] == bits;
      Link(edges[depth].0, edges[depth].1, 0, mem0, t, bits, PT.Nil);
      StackKept(mem0, mem, root0, root, t, bits, 0, edges);
    }

    method Combine(edges: seq<(nat, bool)>, depth: nat, node: nat, next: nat, ghost t: PT.Trie, ghost bits: seq<bool>, ghost u: PT.Trie)
      requires Valid(t) && At(mem, root, t, bits, u, node) && u.Node? && node in mem && next in mem && next != 0 && OnlyEdge(mem[node], u, next)
      requires mem[node].nbits + mem[next].nbits <= PT.TRIE_PREFIX_BITS
      requires Stack(mem, root, bits, edges) && depth == |bits|
      modifies this
      ensures var v := if u.e0.Node? then u.e0 else u.e1;
              v.Node? && u.nbits + v.nbits <= 32 && Valid(ReplaceAt(t, bits, PT.Merged(u, v)))
    {
      hide Rep, Cells, Walk, Outside, Sub, Parent, LastBit, ReplaceAt, Rewired, Words.Or, Words.Shr;
      ghost var mem0, v := mem, if u.e0.Node? then u.e0 else u.e1;
      var n := mem[node].nbits;
      mem := mem[next := mem[next].(prefix := Or(mem[node].prefix, Shr(mem[next].prefix, n)), nbits := n + mem[next].nbits)];
      mem := mem - {node};
      MergedRep(mem0, mem, root, t, bits, u, node, next, v);
      assert bits[..depth] == bits;
      Link(edges[depth].0, edges[depth].1, next, mem0, t, bits, PT.Merged(u, v));
    }

    lemma Climb(t: PT.Trie, bits: seq<bool>, edges: seq<(nat, bool)>)
      requires Through(t, bits) && bits != [] && Valid(ReplaceAt(t, bits, PT.Nil)) && Stack(mem, root, bits, edges)
      ensures var n := |bits| - 1; var t1 := ReplaceAt(t, bits, PT.Nil); var u := Sub(t1, bits[..n]); var node := EdgeTarget(mem, root, edges[n]);
              && Through(t1, bits[..n]) && u.Node? && At(mem, root, t1, bits[..n], u, node) && node in mem
              && Stack(mem, root, bits[..n], edges)
              && Up(t, bits, PT.Nil) == Up(t1, bits[..n], PT.Prune(u))
    {
      hide Rep, Cells, Through, Sub, ReplaceAt, Up, PT.Prune, LastBit, EdgeOf;
      var n, t1 := |bits| - 1, ReplaceAt(t, bits, PT.Nil);
      UpStep(t, bits);
      StackShorter(mem, root, bits, edges);
      assert bits[..n][..n] == bits[..n];
      if n > 0 {
        EdgeAt(mem, root, t1, bits[..n]);
      }
      AtNode(mem, root, t1, bits[..n], Sub(t1, bits[..n]), Walk(mem, root, bits[..n]));
    }

    /** The walk of an update stands at a subtrie, with the edge to it known. */
    ghost predicate Standing(t: PT.Trie, bits: seq<bool>, u: PT.Trie, node: nat, parent: nat, bit: bool)
      reads this
    {
      At(mem, root, t, bits, u, node) && parent == Parent(mem, root, bits) && bit == LastBit(bits)
    }

    lemma Start(t: PT.Trie, v: PT.Trie)
      requires Valid(t)
      ensures Standing(t, [], t, root, 0, false) && ReplaceAt(t, [], v) == v
    {
    }

    method AddBranch(parent: nat, bit: bool, pr: seq<Word>, ofs: nat, mlen: nat, ghost t: PT.Trie, ghost bits: seq<bool>, ghost u: PT.Trie)
      requires Valid(t) && Standing(t, bits, u, 0, parent, bit) && ofs < mlen <= 32 * |pr|
      modifies this
      ensures u.Nil? && Valid(ReplaceAt(t, bits, PT.BranchCreate(pr, ofs, mlen - ofs, 1)))
    {
      hide Rep, Cells, PT.BranchCreate, Parent, LastBit, Outside, Walk, ReplaceAt;
      AtNull(mem, root, t, bits, u);
      ghost var mem0 := mem;
      var q := BranchCreate(pr, ofs, mlen - ofs, 1);
      Link(parent, bit, q, mem0, t, bits, PT.BranchCreate(pr, ofs, mlen - ofs, 1));
    }

    method AddRule(parent: nat, bit: bool, node: nat, ghost t: PT.Trie, ghost bits: seq<bool>, ghost u: PT.Trie)
      requires Valid(t) && Standing(t, bits, u, node, parent, bit) && u.Node? && node in mem
      modifies this
      ensures Valid(ReplaceAt(t, bits, u.(nRules := u.nRules + 1)))
    {
      hide Rep, Cells, Walk, Outside, Parent, LastBit, ReplaceAt, At;
      AtNode(mem, root, t, bits, u, node);
      ghost var mem0 := mem;
      mem := mem[node := mem[node].(nRules := mem[node].nRules + 1)];
      Rewritten(mem0, mem, root, t, bits, u, u.(nRules := u.nRules + 1), node);
      Unlinked(mem0, mem, root, t, bits, u, node, u.(nRules := u.nRules + 1));
    }
  }

  /** These nodes are as they were. */
  ghost predicate Kept(mem: Mem, mem1: Mem, cells: set<nat>) {
    forall c :: c in cells ==> c in mem && c in mem1 && mem1[c] == mem[c]
  }

  /** The walk along a path stands at a subtrie. */
  ghost predicate At(mem: Mem, root: nat, t: PT.Trie, bits: seq<bool>, u: PT.Trie, node: nat) {
    Rep(mem, root, t) && Through(t, bits) && u == Sub(t, bits) && node == Walk(mem, root, bits)
  }

  /** Changing the node at the end of a path, but not its edges. */
  lemma Rewritten(mem: Mem, mem1: Mem, root: nat, t: PT.Trie, bits: seq<bool>, u: PT.Trie, v: PT.Trie, node: nat)
    requires At(mem, root, t, bits, u, node) && u.Node? && v.Node? && v.e0 == u.e0 && v.e1 == u.e1 && node in mem
    requires mem1 == mem[node := mem[node].(prefix := v.prefix, nbits := v.nbits, nRules := v.nRules)]
    ensures Rep(mem1, node, v) && Cells(mem1, node, v) == Cells(mem, node, u) <= Cells(mem, root, t)
    ensures Kept(mem, mem1, Outside(mem, root, t, bits)) && Cells(mem1, node, v) !! Outside(mem, root, t, bits)
    ensures Outside(mem, root, t, bits) + Cells(mem1, node, v) == Cells(mem, root, t)
  {
    hide Rep, Cells, Walk, Sub, Through;
    RepSub(mem, root, t, bits);
    CellsIn(mem, root, t);
    RewrittenNode(mem, mem1, node, u, v);
  }

  lemma RewrittenNode(mem: Mem, mem1: Mem, node: nat, u: PT.Trie, v: PT.Trie)
    requires Rep(mem, node, u) && u.Node? && v.Node? && v.e0 == u.e0 && v.e1 == u.e1 && node in mem && node in mem1
    requires mem1[node] == mem[node].(prefix := v.prefix, nbits := v.nbits, nRules := v.nRules)
    requires Kept(mem, mem1, Cells(mem, node, u) - {node})
    ensures Rep(mem1, node, v) && Cells(mem1, node, v) == Cells(mem, node, u) && node in Cells(mem, node, u)
  {
    hide Rep, Cells;
    Apart(mem, node, u, true);
    Apart(mem, node, u, false);
    RepFrame(mem, mem1, mem[node].e0, u.e0);
    RepFrame(mem, mem1, mem[node].e1, u.e1);
    Joined(mem1, node, v, true);
  }

  /** An update that leaves the edge as it is. */
  lemma Unlinked(mem: Mem, mem1: Mem, root: nat, t: PT.Trie, bits: seq<bool>, u: PT.Trie, node: nat, v: PT.Trie)
    requires At(mem, root, t, bits, u, node) && Kept(mem, mem1, Outside(mem, root, t, bits))
    requires Rep(mem1, node, v) && Cells(mem1, node, v) !! Outside(mem, root, t, bits)
    ensures Rep(mem1, root, ReplaceAt(t, bits, v)) && Cells(mem1, root, ReplaceAt(t, bits, v)) == Outside(mem, root, t, bits) + Cells(mem1, node, v)
  {
    hide Rep, Cells, Outside, ReplaceAt, Sub, Parent, LastBit, WithEdge, EdgeOf;
    if bits != [] {
      EdgeAt(mem, root, t, bits);
      EdgeItself(mem[Parent(mem, root, bits)], LastBit(bits));
    } else {
      NothingOutside(mem, root, t);
    }
    ReplaceRep(mem, mem1, root, t, bits, node, v);
  }

  lemma OtherEdge(c: Cell, b: bool, p: nat)
    requires c.e0 == c.e1 == 0
    ensures EdgeOf(WithEdge(c, b, p), !b) == 0
  {
  }

  lemma EdgeItself(c: Cell, b: bool)
    ensures WithEdge(c, b, EdgeOf(c, b)) == c
  {
  }

  lemma EdgeAt(mem: Mem, root: nat, t: PT.Trie, bits: seq<bool>)
    requires Rep(mem, root, t) && Through(t, bits) && bits != []
    ensures var p := Parent(mem, root, bits);
            p in mem && EdgeOf(mem[p], LastBit(bits)) == Walk(mem, root, bits)
  {
    var n := |bits| - 1;
    assert bits == bits[..n] + [bits[n]];
    ThroughPart(t, bits, n);
    Extend(mem, root, t, bits[..n], bits[n]);
  }

  lemma {:induction false} ThroughPart(t: PT.Trie, bits: seq<bool>, n: nat)
    requires Through(t, bits) && n < |bits|
    ensures Through(t, bits[..n]) && Sub(t, bits[..n]).Node?
    decreases n
  {
    if n > 0 {
      ThroughPart(PT.Edge(t, bits[0]), bits[1..], n - 1);
      assert bits[..n][1..] == bits[1..][..n - 1];
    }
  }

  lemma AtNode(mem: Mem, root: nat, t: PT.Trie, bits: seq<bool>, u: PT.Trie, node: nat)
    requires At(mem, root, t, bits, u, node) && (node != 0 || u.Node?)
    ensures u.Node? && node in mem && mem[node].prefix == u.prefix && mem[node].nbits == u.nbits && mem[node].nRules == u.nRules
  {
    RepSub(mem, root, t, bits);
  }

  lemma AtNull(mem: Mem, root: nat, t: PT.Trie, bits: seq<bool>, u: PT.Trie)
    requires At(mem, root, t, bits, u, 0)
    ensures u.Nil? && Outside(mem, root, t, bits) == Cells(mem, root, t)
  {
    RepSub(mem, root, t, bits);
  }

  lemma Onward(mem: Mem, root: nat, t: PT.Trie, bits: seq<bool>, u: PT.Trie, node: nat, b: bool, v: PT.Trie)
    requires At(mem, root, t, bits, u, node) && u.Node? && node in mem
    ensures At(mem, root, t, bits + [b], PT.Edge(u, b), EdgeOf(mem[node], b))
    ensures Parent(mem, root, bits + [b]) == node && LastBit(bits + [b]) == b
    ensures ReplaceAt(t, bits + [b], v) == ReplaceAt(t, bits, PT.SetEdge(u, b, v))
  {
    Extend(mem, root, t, bits, b);
    Longer(t, bits, b, v);
    assert (bits + [b])[..|bits + [b]| - 1] == bits;
  }

  lemma SplitRep(mem: Mem, mem1: Mem, root: nat, t: PT.Trie, bits: seq<bool>, u: PT.Trie, node: nat, q: nat, fork: nat,
                 pr: seq<Word>, ofs: nat, mlen: nat, eqbits: nat)
    requires At(mem, root, t, bits, u, node) && u.Node? && eqbits < u.nbits && ofs + eqbits <= mlen <= 32 * |pr|
    requires node in mem && node in mem1 && mem1[node] == mem[node].(prefix := Shl(u.prefix, eqbits), nbits := u.nbits - eqbits)
    requires Kept(mem, mem1, mem.Keys - {node}) && q != 0 && q in mem1 && q !in mem
    requires mem1[q] == WithEdge(WithEdge(Cell(PT.TrieGetPrefix(pr, ofs, eqbits), eqbits, if ofs + eqbits == mlen then 1 else 0, 0, 0), u.prefix[eqbits], node), !u.prefix[eqbits], fork)
    requires Rep(mem1, fork, PT.Fork(pr, ofs + eqbits, mlen)) && Cells(mem1, fork, PT.Fork(pr, ofs + eqbits, mlen)) !! mem.Keys + {q}
    ensures var v := PT.Split(u, pr, ofs, mlen, eqbits);
            && Rep(mem1, q, v) && Cells(mem1, q, v) == {q} + Cells(mem, node, u) + Cells(mem1, fork, PT.Fork(pr, ofs + eqbits, mlen))
            && Kept(mem, mem1, Outside(mem, root, t, bits)) && Cells(mem1, q, v) !! Outside(mem, root, t, bits)
            && Outside(mem, root, t, bits) + Cells(mem, node, u) == Cells(mem, root, t)
  {
    hide Rep, Cells, Walk, Sub, Through, Words.Bits, Shl, PT.TrieGetPrefix, PT.Fork;
    RepSub(mem, root, t, bits);
    CellsIn(mem, root, t);
    RewrittenNode(mem, mem1, node, u, PT.Shortened(u, eqbits));
    Joined(mem1, q, PT.Split(u, pr, ofs, mlen, eqbits), u.prefix[eqbits]);
  }

  lemma InsertUnfold(u: PT.Trie, c: Cell, pr: seq<Word>, ofs: nat, mlen: nat)
    requires u.Node? && c.prefix == u.prefix && c.nbits == u.nbits && ofs < mlen <= 32 * |pr|
    ensures var eq := PT.TriePrefixEqualBits(Fields(c), pr, ofs, mlen);
            && eq <= u.nbits && ofs + eq <= mlen
            && (eq < u.nbits ==> PT.Insert(u, pr, ofs, mlen) == PT.Split(u, pr, ofs, mlen, eq))
            && (eq == u.nbits && ofs + eq == mlen ==> PT.Insert(u, pr, ofs, mlen) == u.(nRules := u.nRules + 1))
            && (eq == u.nbits && ofs + eq < mlen ==>
                  var b := Words.Bits(pr)[ofs + eq];
                  PT.Insert(u, pr, ofs, mlen) == PT.SetEdge(u, b, PT.Insert(PT.Edge(u, b), pr, ofs + eq, mlen)))
  {
    hide PT.Split, Words.Bits, PT.PrefixEqualBits;
  }

  lemma InsertAtNull(pr: seq<Word>, ofs: nat, mlen: nat)
    requires ofs < mlen <= 32 * |pr|
    ensures PT.Insert(PT.Nil, pr, ofs, mlen) == PT.BranchCreate(pr, ofs, mlen - ofs, 1)
  {
  }

  lemma LeafRep(mem: Mem, p: nat)
    requires p != 0 && p in mem && mem[p].e0 == mem[p].e1 == 0
    ensures Rep(mem, p, Fields(mem[p])) && Cells(mem, p, Fields(mem[p])) == {p}
  {
  }

  lemma OneEdge(mem: Mem, p: nat, prefix: Word, b: bool, sub: nat, t: PT.Trie)
    requires p != 0 && p in mem && mem[p] == WithEdge(Cell(prefix, 32, 0, 0, 0), b, sub) && Rep(mem, sub, t) && p !in Cells(mem, sub, t)
    ensures var u := PT.SetEdge(PT.Node(prefix, 32, 0, PT.Nil, PT.Nil), b, t);
            Rep(mem, p, u) && Cells(mem, p, u) == {p} + Cells(mem, sub, t)
  {
    hide Rep, Cells;
    NullRep(mem);
    Joined(mem, p, PT.SetEdge(PT.Node(prefix, 32, 0, PT.Nil, PT.Nil), b, t), b);
  }

  lemma NullRep(mem: Mem)
    ensures Rep(mem, 0, PT.Nil) && Cells(mem, 0, PT.Nil) == {}
  {
  }
}
