/** One instance of the datapath's flow hash table: buckets of singly linked
    chains threaded through the flows themselves.  A flow carries two link
    fields, so that it can be in the old and the new instance at once while
    the table is being rehashed. */
module FlowInstance {
  import opened Arithmetic
  import opened Words

  class SwFlow {
    var key: seq<Word>
    var hash: Word
    var mask: nat
    var next0: SwFlow?
    var next1: SwFlow?

    constructor (key: seq<Word>)
      ensures this.key == key
    {
      this.key := key;
      hash := Zero();
      mask := 0;
      next0, next1 := null, null;
    }

    function Next(ver: bool): SwFlow?
      reads this
    {
      if ver then next1 else next0
    }

    method SetNext(ver: bool, n: SwFlow?)
      modifies this`next0, this`next1
      ensures Next(ver) == n && Next(!ver) == old(Next(!ver))
    {
      if ver { next1 := n; } else { next0 := n; }
    }
  }

  function At(c: seq<SwFlow>, j: nat): SwFlow? {
    if j < |c| then c[j] else null
  }

  /** The chain starting at 'head' visits exactly 'c', following 'next'. */
  ghost predicate Linked(head: SwFlow?, c: seq<SwFlow>, next: map<SwFlow, SwFlow?>) {
    head == At(c, 0) && forall j :: 0 <= j < |c| ==> c[j] in next && next[c[j]] == At(c, j + 1)
  }

  predicate NoRepeat(c: seq<SwFlow>) {
    forall i, j :: 0 <= i < j < |c| ==> c[i] != c[j]
  }

  ghost predicate BucketOk(i: nat, head: SwFlow?, c: seq<SwFlow>, next: map<SwFlow, SwFlow?>, home: map<SwFlow, nat>) {
    Linked(head, c, next) && NoRepeat(c) && forall f :: f in c ==> f in home && home[f] == i
  }

  /** The chains, one per bucket, hold exactly the flows of 'home', each in
      its home bucket. */
  ghost predicate ChainsOk(heads: seq<SwFlow?>, chains: seq<seq<SwFlow>>, next: map<SwFlow, SwFlow?>, home: map<SwFlow, nat>) {
    && |heads| == |chains|
    && (forall f :: f in home ==> home[f] < |chains| && f in chains[home[f]])
    && forall i :: 0 <= i < |chains| ==> BucketOk(i, heads[i], chains[i], next, home)
  }

  lemma InsertOk(heads: seq<SwFlow?>, chains: seq<seq<SwFlow>>, next: map<SwFlow, SwFlow?>, home: map<SwFlow, nat>, f: SwFlow, i: nat)
    requires ChainsOk(heads, chains, next, home) && f !in home && i < |chains|
    ensures ChainsOk(heads[i := f], chains[i := [f] + chains[i]], next[f := heads[i]], home[f := i])
  {
    var next1, home1, heads1, chains1 := next[f := heads[i]], home[f := i], heads[i := f], chains[i := [f] + chains[i]];
    forall k | 0 <= k < |chains| ensures BucketOk(k, heads1[k], chains1[k], next1, home1) {
      assert BucketOk(k, heads[k], chains[k], next, home);
      assert forall g :: g in chains[k] ==> g != f;
      if k == i {
        ConsLinked(heads[i], f, chains[i], next, next1);
      }
    }
  }

  lemma ConsLinked(head: SwFlow?, f: SwFlow, c: seq<SwFlow>, next: map<SwFlow, SwFlow?>, next1: map<SwFlow, SwFlow?>)
    requires Linked(head, c, next) && NoRepeat(c) && f !in c && next1 == next[f := head]
    ensures Linked(f, [f] + c, next1) && NoRepeat([f] + c)
  {
  }

  ghost function NextMap(flows: set<SwFlow>, ver: bool): map<SwFlow, SwFlow?>
    reads flows
  {
    map f | f in flows :: f.Next(ver)
  }

  class TableInstance {
    const buckets: array<SwFlow?>
    const ver: bool
    const seed: Word
    const jhash: (Word, Word) -> nat
    ghost var chains: seq<seq<SwFlow>>
    ghost var flows: set<SwFlow>

    /** find_bucket; the mask n - 1 is a remainder, as n is a power of two. */
    function BucketOf(hash: Word): (b: nat)
      requires buckets.Length > 0
      ensures b < buckets.Length
    {
      jhash(hash, seed) % buckets.Length
    }

    ghost function HomeMap(): map<SwFlow, nat>
      requires buckets.Length > 0
      reads this, flows
    {
      map f | f in flows :: BucketOf(f.hash)
    }

    ghost predicate Valid()
      reads this, buckets, flows
    {
      PowerOfTwo(buckets.Length) && ChainsOk(buckets[..], chains, NextMap(flows, ver), HomeMap())
    }

    /** table_instance_alloc. */
    constructor (n: nat, ver: bool, seed: Word, jhash: (Word, Word) -> nat)
      requires PowerOfTwo(n)
      ensures Valid() && flows == {} && fresh(buckets) && buckets.Length == n
      ensures this.ver == ver && this.seed == seed && this.jhash == jhash
    {
      buckets := new SwFlow?[n](i => null);
      this.ver, this.seed, this.jhash := ver, seed, jhash;
      chains, flows := seq(n, i => []), {};
    }

    /** table_instance_insert: add at the head of the flow's bucket. */
    method Insert(f: SwFlow)
      requires Valid() && f !in flows
      modifies this`chains, this`flows, buckets, f`next0, f`next1
      ensures Valid() && flows == old(flows) + {f}
      ensures f.Next(!ver) == old(f.Next(!ver))
    {
      hide ChainsOk, PowerOfTwo;
      var i := BucketOf(f.hash);
      ghost var next, home, heads := NextMap(flows, ver), HomeMap(), buckets[..];
      ChainsSize(heads, chains, next, home);
      InsertOk(heads, chains, next, home, f, i);
      f.SetNext(ver, buckets[i]);
      buckets[i] := f;
      chains, flows := chains[i := [f] + chains[i]], flows + {f};
      assert buckets[..] == heads[i := f];
      assert NextMap(flows, ver) == next[f := heads[i]];
      assert HomeMap() == home[f := i];
    }

    /** Walk one bucket for the flow that meets all three tests of
        masked_flow_lookup. */
    method Find(mask: nat, hash: Word, start: nat, masked: seq<Word>) returns (f: SwFlow?)
      requires Valid()
      ensures f != null ==> f in flows && Hit(f, mask, hash, start, masked)
      ensures f == null ==> forall g :: g in flows ==> !Hit(g, mask, hash, start, masked)
    {
      hide ChainsOk, PowerOfTwo;
      var i := BucketOf(hash);
      BucketFacts(this, i);
      ghost var c := chains[i];
      f := buckets[i];
      ghost var j := 0;
      while f != null
        invariant j <= |c| && f == At(c, j)
        invariant forall k :: 0 <= k < j ==> !Hit(c[k], mask, hash, start, masked)
        decreases |c| - j
      {
        if f.mask == mask && f.hash == hash && KeyMatches(f.key, start, masked) {
          return;
        }
        f := f.Next(ver);
        j := j + 1;
      }
    }

    /** hlist_del: unlink the flow from its chain. */
    method Delete(f: SwFlow)
      requires Valid() && f in flows
      modifies this`chains, this`flows, buckets, flows`next0, flows`next1
      ensures Valid() && flows == old(flows) - {f}
      ensures forall g :: g in old(flows) ==> g.Next(!ver) == old(g.Next(!ver))
    {
      hide ChainsOk, PowerOfTwo, NoRepeat, BucketOf;
      var i := BucketOf(f.hash);
      BucketFacts(this, i);
      ghost var j := IndexIn(chains[i], f);
      if buckets[i] == f {
        FirstIndex(chains[i], f, j);
        DeleteFirst(f, i);
      } else {
        var prev := FindPrev(i, f, j);
        DeleteAfter(prev, f, i, j);
      }
    }

    method DeleteFirst(f: SwFlow, i: nat)
      requires Valid() && f in flows && i < buckets.Length == |chains| && chains[i] != [] && chains[i][0] == f
      modifies this`chains, this`flows, buckets
      ensures Valid() && flows == old(flows) - {f}
    {
      hide ChainsOk, PowerOfTwo, NoRepeat, BucketOf;
      ghost var c, next, home, heads := chains[i], NextMap(flows, ver), HomeMap(), buckets[..];
      DeleteOk(heads, chains, next, home, f, i, 0);
      buckets[i] := f.Next(ver);
      chains, flows := chains[i := c[..0] + c[1..]], flows - {f};
      assert buckets[..] == heads[i := next[f]];
      assert NextMap(flows, ver) == next - {f};
      assert HomeMap() == home - {f};
    }

    method DeleteAfter(prev: SwFlow, f: SwFlow, i: nat, ghost j: nat)
      requires Valid() && f in flows && prev in flows && prev != f
      requires i < buckets.Length == |chains| && 0 < j < |chains[i]| && chains[i][j] == f && chains[i][j - 1] == prev
      modifies this`chains, this`flows, prev`next0, prev`next1
      ensures Valid() && flows == old(flows) - {f}
      ensures prev.Next(!ver) == old(prev.Next(!ver))
    {
      hide ChainsOk, PowerOfTwo, NoRepeat, BucketOf;
      ghost var c, next, home, heads := chains[i], NextMap(flows, ver), HomeMap(), buckets[..];
      DeleteOk(heads, chains, next, home, f, i, j);
      prev.SetNext(ver, f.Next(ver));
      chains, flows := chains[i := c[..j] + c[j + 1..]], flows - {f};
      assert NextMap(flows, ver) == next[prev := next[f]] - {f};
      assert HomeMap() == home - {f};
    }

    /** The predecessor, which the back pointer of an hlist node gives. */
    method FindPrev(i: nat, f: SwFlow, ghost j: nat) returns (prev: SwFlow)
      requires Valid() && i < buckets.Length == |chains| && 0 < j < |chains[i]| && chains[i][j] == f
      ensures prev == chains[i][j - 1] && prev in flows && prev != f
    {
      hide ChainsOk, PowerOfTwo;
      BucketFacts(this, i);
      ghost var c, k := chains[i], 0;
      prev := buckets[i];
      while prev.Next(ver) != f
        invariant k < j && prev == c[k]
        decreases j - k
      {
        prev := prev.Next(ver);
        k := k + 1;
      }
      SamePlace(c, k + 1, j);
    }

    /** ovs_flow_tbl_dump_next: resume at position 'last' of 'bucket'. */
    method DumpNext(bucket: nat, last: nat) returns (f: SwFlow?, bucket': nat, last': nat)
      requires Valid() && bucket <= buckets.Length && (bucket < buckets.Length ==> last <= |chains[bucket]|)
      ensures bucket <= bucket' <= buckets.Length && (bucket' < buckets.Length ==> last' <= |chains[bucket']|)
      ensures f == At(Remaining(chains, bucket, last), 0)
      ensures Remaining(chains, bucket', last')
           == var r := Remaining(chains, bucket, last); if r == [] then [] else r[1..]
    {
      hide ChainsOk, PowerOfTwo, Remaining, NextMap;
      ChainsSize(buckets[..], chains, NextMap(flows, ver), HomeMap());
      bucket', last' := bucket, last;
      while bucket' < buckets.Length
        invariant bucket <= bucket' <= buckets.Length && (bucket' < buckets.Length ==> last' <= |chains[bucket']|)
        invariant Remaining(chains, bucket', last') == Remaining(chains, bucket, last)
      {
        f := SkipTo(bucket', last');
        if f != null {
          RemainingStep(chains, bucket', last');
          last' := last' + 1;
          return;
        }
        NextBucket(chains, bucket', last');
        bucket', last' := bucket' + 1, 0;
      }
      NothingRemains(chains, last');
      f := null;
    }

    /** The inner loop of a dump: pass over what was already visited. */
    method SkipTo(bucket: nat, last: nat) returns (f: SwFlow?)
      requires Valid() && bucket < buckets.Length == |chains| && last <= |chains[bucket]|
      ensures f == At(chains[bucket], last)
    {
      hide ChainsOk, PowerOfTwo;
      BucketFacts(this, bucket);
      ghost var c := chains[bucket];
      var i := 0;
      f := buckets[bucket];
      while f != null && i < last
        invariant i <= last && f == At(c, i)
      {
        f := f.Next(ver);
        i := i + 1;
      }
    }
  }

  predicate KeyMatches(key: seq<Word>, start: nat, masked: seq<Word>) {
    start + |masked| <= |key| && key[start..start + |masked|] == masked
  }

  predicate Hit(f: SwFlow, mask: nat, hash: Word, start: nat, masked: seq<Word>)
    reads f
  {
    f.mask == mask && f.hash == hash && KeyMatches(f.key, start, masked)
  }

  lemma BucketFacts(ti: TableInstance, i: nat)
    requires ti.Valid() && i < ti.buckets.Length
    ensures |ti.chains| == ti.buckets.Length
    ensures ti.buckets[i] == At(ti.chains[i], 0) && NoRepeat(ti.chains[i])
    ensures forall j :: 0 <= j < |ti.chains[i]| ==>
              ti.chains[i][j] in ti.flows && ti.chains[i][j].Next(ti.ver) == At(ti.chains[i], j + 1)
    ensures forall f :: f in ti.flows && ti.BucketOf(f.hash) == i ==> f in ti.chains[i]
  {
    hide PowerOfTwo;
    var home := ti.HomeMap();
    assert BucketOk(i, ti.buckets[..][i], ti.chains[i], NextMap(ti.flows, ti.ver), home);
    forall f | f in ti.flows && ti.BucketOf(f.hash) == i ensures f in ti.chains[i] {
      assert f in home && home[f] == i;
    }
  }

  ghost function IndexIn(c: seq<SwFlow>, f: SwFlow): (j: nat)
    requires f in c
    ensures j < |c| && c[j] == f
  {
    if c[0] == f then 0 else 1 + IndexIn(c[1..], f)
  }

  lemma SamePlace(c: seq<SwFlow>, i: nat, j: nat)
    requires NoRepeat(c) && i < |c| && j < |c| && c[i] == c[j]
    ensures i == j
  {
  }

  lemma FirstIndex(c: seq<SwFlow>, f: SwFlow, j: nat)
    requires NoRepeat(c) && j < |c| && c[j] == f && c[0] == f
    ensures j == 0
  {
  }

  lemma NothingRemains(chains: seq<seq<SwFlow>>, last: nat)
    ensures Remaining(chains, |chains|, last) == []
  {
  }

  lemma RemainingStep(chains: seq<seq<SwFlow>>, bucket: nat, last: nat)
    requires bucket < |chains| && last < |chains[bucket]|
    ensures Remaining(chains, bucket, last) == [chains[bucket][last]] + Remaining(chains, bucket, last + 1)
  {
    hide Flat;
    HeadOff(chains[bucket], last, Flat(chains[bucket + 1..]));
  }

  lemma HeadOff(c: seq<SwFlow>, last: nat, rest: seq<SwFlow>)
    requires last < |c|
    ensures c[last..] + rest == [c[last]] + (c[last + 1..] + rest)
  {
    assert c[last..] == [c[last]] + c[last + 1..];
  }

  lemma NextBucket(chains: seq<seq<SwFlow>>, bucket: nat, last: nat)
    requires bucket < |chains| && last == |chains[bucket]|
    ensures Remaining(chains, bucket + 1, 0) == Remaining(chains, bucket, last)
  {
    assert chains[bucket + 1..] == [] || chains[bucket + 1..][1..] == chains[bucket + 2..];
    if bucket + 1 < |chains| {
      assert chains[bucket + 1][0..] == chains[bucket + 1];
    }
  }

  lemma DeleteOk(heads: seq<SwFlow?>, chains: seq<seq<SwFlow>>, next: map<SwFlow, SwFlow?>, home: map<SwFlow, nat>,
                 f: SwFlow, i: nat, j: nat)
    requires ChainsOk(heads, chains, next, home) && i < |chains| && j < |chains[i]| && chains[i][j] == f
    ensures |heads| == |chains| && f in next && f in home
    ensures var c := chains[i];
            ChainsOk(if j == 0 then heads[i := next[f]] else heads, chains[i := c[..j] + c[j + 1..]],
                     (if j == 0 then next else next[c[j - 1] := next[f]]) - {f}, home - {f})
  {
    hide Linked, NoRepeat;
    var c := chains[i];
    assert BucketOk(i, heads[i], c, next, home);
    UnlinkOk(heads[i], c, next, f, j);
    var chains1, home1 := chains[i := c[..j] + c[j + 1..]], home - {f};
    var heads1 := if j == 0 then heads[i := next[f]] else heads;
    var next1 := (if j == 0 then next else next[c[j - 1] := next[f]]) - {f};
    forall k | 0 <= k < |chains| ensures BucketOk(k, heads1[k], chains1[k], next1, home1) {
      assert BucketOk(k, heads[k], chains[k], next, home);
      if k != i {
        LinkedKeys(heads[k], chains[k], next);
        assert c[j] in c && (j > 0 ==> c[j - 1] in c);
        assert forall g :: g in chains[k] ==> g != f && (j > 0 ==> g != c[j - 1]);
        OtherLinks(heads[k], chains[k], next, next1);
      } else {
        assert heads1[k] == if j == 0 then next[f] else heads[i];
        assert chains1[k] == c[..j] + c[j + 1..];
      }
    }
    forall g | g in home1 ensures home1[g] < |chains1| && g in chains1[home1[g]] {
      if home1[g] == i {
        StillThere(c, g, j);
      }
    }
  }

  lemma StillThere(c: seq<SwFlow>, g: SwFlow, j: nat)
    requires j < |c| && g in c && g != c[j]
    ensures g in c[..j] + c[j + 1..]
  {
    var k :| 0 <= k < |c| && c[k] == g;
    assert (c[..j] + c[j + 1..])[if k < j then k else k - 1] == g;
  }

  lemma LinkedKeys(head: SwFlow?, c: seq<SwFlow>, next: map<SwFlow, SwFlow?>)
    requires Linked(head, c, next)
    ensures forall g :: g in c ==> g in next
  {
  }

  lemma OtherLinks(head: SwFlow?, c: seq<SwFlow>, next: map<SwFlow, SwFlow?>, next1: map<SwFlow, SwFlow?>)
    requires Linked(head, c, next) && forall g :: g in c ==> g in next1 && (g in next ==> next1[g] == next[g])
    ensures Linked(head, c, next1)
  {
  }

  lemma UnlinkOk(head: SwFlow?, c: seq<SwFlow>, next: map<SwFlow, SwFlow?>, f: SwFlow, j: nat)
    requires Linked(head, c, next) && NoRepeat(c) && j < |c| && c[j] == f
    ensures f in next
    ensures var next1 := (if j == 0 then next else next[c[j - 1] := next[f]]) - {f};
            Linked(if j == 0 then next[f] else head, c[..j] + c[j + 1..], next1) && NoRepeat(c[..j] + c[j + 1..])
    ensures forall g :: g in c[..j] + c[j + 1..] ==> g in c && g != f
  {
    var c1 := c[..j] + c[j + 1..];
    var next1 := (if j == 0 then next else next[c[j - 1] := next[f]]) - {f};
    forall k | 0 <= k < |c1| ensures c1[k] == c[if k < j then k else k + 1] && c1[k] != f { }
    forall k | 0 <= k < |c1| ensures c1[k] in next1 && next1[c1[k]] == At(c1, k + 1) {
      var k0 := if k < j then k else k + 1;
      assert c1[k] == c[k0] && next[c[k0]] == At(c, k0 + 1);
      if k + 1 == j {
        assert At(c1, k + 1) == At(c, j + 1) == next[f];
      } else {
        assert j > 0 ==> c[k0] != c[j - 1];
        assert At(c1, k + 1) == At(c, k0 + 1);
      }
    }
  }

  /** What a dump has still to visit. */
  ghost function Remaining(chains: seq<seq<SwFlow>>, bucket: nat, last: nat): seq<SwFlow>
    requires bucket <= |chains| && (bucket < |chains| ==> last <= |chains[bucket]|)
  {
    if bucket == |chains| then [] else chains[bucket][last..] + Flat(chains[bucket + 1..])
  }

  /** All chains one after the other: the order of a dump. */
  ghost function Flat(chains: seq<seq<SwFlow>>): seq<SwFlow> {
    if chains == [] then [] else chains[0] + Flat(chains[1..])
  }

  /** A dump from the start visits every flow, and none twice. */
  lemma DumpComplete(ti: TableInstance)
    requires ti.Valid()
    ensures |ti.chains| == ti.buckets.Length > 0 && Remaining(ti.chains, 0, 0) == Flat(ti.chains)
    ensures NoRepeat(Flat(ti.chains)) && forall f :: f in Flat(ti.chains) <==> f in ti.flows
  {
    hide PowerOfTwo;
    ChainsSize(ti.buckets[..], ti.chains, NextMap(ti.flows, ti.ver), ti.HomeMap());
    FlatOk(ti.buckets[..], ti.chains, NextMap(ti.flows, ti.ver), ti.HomeMap(), 0);
    assert ti.chains[0..] == ti.chains;
    assert ti.chains[0][0..] == ti.chains[0];
  }

  lemma {:induction false} FlatOk(heads: seq<SwFlow?>, chains: seq<seq<SwFlow>>, next: map<SwFlow, SwFlow?>, home: map<SwFlow, nat>, i: nat)
    requires ChainsOk(heads, chains, next, home) && i <= |chains|
    ensures NoRepeat(Flat(chains[i..]))
    ensures forall f :: f in Flat(chains[i..]) <==> f in home && home[f] >= i
    decreases |chains| - i
  {
    hide Linked;
    if i < |chains| {
      FlatOk(heads, chains, next, home, i + 1);
      assert chains[i..][1..] == chains[i + 1..];
      assert BucketOk(i, heads[i], chains[i], next, home);
      NoRepeatAppend(chains[i], Flat(chains[i + 1..]));
    }
  }

  lemma NoRepeatAppend(a: seq<SwFlow>, b: seq<SwFlow>)
    requires NoRepeat(a) && NoRepeat(b) && forall f :: f in a ==> f !in b
    ensures NoRepeat(a + b)
  {
    var c := a + b;
    forall i, j | 0 <= i < j < |c| ensures c[i] != c[j] {
      if i < |a| <= j {
        assert c[i] in a && c[j] in b;
      }
    }
  }

  lemma ChainsSize(heads: seq<SwFlow?>, chains: seq<seq<SwFlow>>, next: map<SwFlow, SwFlow?>, home: map<SwFlow, nat>)
    requires ChainsOk(heads, chains, next, home)
    ensures |heads| == |chains|
  {
  }

  // ------------------------------------------------ rehashing

  ghost function InBucket(c: seq<SwFlow>): set<SwFlow> {
    set f | f in c
  }

  /** Two instances that share flows through different links. */
  ghost predicate Apart(from: TableInstance, to: TableInstance) {
    to != from && to.buckets != from.buckets && to.ver == !from.ver
  }

  /** Insert one flow of the old instance; its old link stays. */
  method CopyFlow(from: TableInstance, to: TableInstance, f: SwFlow)
    requires from.Valid() && to.Valid() && Apart(from, to) && f in from.flows && f !in to.flows
    modifies to`chains, to`flows, to.buckets, f`next0, f`next1
    ensures from.Valid() && to.Valid() && to.flows == old(to.flows) + {f}
    ensures from.HomeMap() == old(from.HomeMap())
  {
    hide ChainsOk, PowerOfTwo;
    ghost var next, home := NextMap(from.flows, from.ver), from.HomeMap();
    to.Insert(f);
    assert NextMap(from.flows, from.ver) == next;
    assert from.HomeMap() == home;
  }

  lemma NoneCopied(c: seq<SwFlow>)
    ensures InBucket(c[..0]) == {}
  {
  }

  lemma NotYetCopied(c: seq<SwFlow>, j: nat, done: set<SwFlow>)
    requires NoRepeat(c) && j < |c| && InBucket(c) !! done
    ensures c[j] !in done + InBucket(c[..j])
    ensures InBucket(c[..j + 1]) == InBucket(c[..j]) + {c[j]}
  {
    assert c[j] in InBucket(c);
    assert c[..j + 1] == c[..j] + [c[j]];
  }

  /** Insert the flows of one old bucket, following the old links while the
      new ones are being written. */
  method CopyBucket(from: TableInstance, to: TableInstance, i: nat)
    requires from.Valid() && to.Valid() && Apart(from, to)
    requires i < from.buckets.Length == |from.chains| && InBucket(from.chains[i]) !! to.flows
    modifies to`chains, to`flows, to.buckets, from.flows`next0, from.flows`next1
    ensures from.Valid() && to.Valid() && to.flows == old(to.flows) + InBucket(from.chains[i])
    ensures from.HomeMap() == old(from.HomeMap())
  {
    hide ChainsOk, PowerOfTwo, NextMap, NoRepeat, InBucket;
    ghost var c, done, home := from.chains[i], to.flows, from.HomeMap();
    BucketFacts(from, i);
    var f := from.buckets[i];
    ghost var j := 0;
    NoneCopied(c);
    while f != null
      invariant j <= |c| && f == At(c, j)
      invariant from.Valid() && to.Valid() && to.flows == done + InBucket(c[..j])
      invariant from.HomeMap() == home
      decreases |c| - j
    {
      NotYetCopied(c, j, done);
      CopyFlow(from, to, f);
      BucketFacts(from, i);
      f := f.Next(from.ver);
      j := j + 1;
    }
    assert c[..j] == c;
  }

  /** table_instance_rehash with flow_table_copy_flows: the new instance
      holds the same flows and the old chains are as they were, because the
      new instance uses the other link of each flow. */
  method Rehash(from: TableInstance, n: nat, seed: Word) returns (to: TableInstance)
    requires from.Valid() && PowerOfTwo(n)
    modifies from.flows`next0, from.flows`next1
    ensures fresh(to) && fresh(to.buckets) && to.Valid() && to.flows == from.flows
    ensures to.buckets.Length == n && to.ver == !from.ver && to.seed == seed && to.jhash == from.jhash
    ensures from.Valid()
  {
    hide ChainsOk, PowerOfTwo, NextMap;
    to := new TableInstance(n, !from.ver, seed, from.jhash);
    ghost var home := from.HomeMap();
    var i := 0;
    while i < from.buckets.Length
      invariant i <= from.buckets.Length && from.Valid() && to.Valid()
      invariant to.flows == set f | f in from.flows && home[f] < i
      invariant from.HomeMap() == home
    {
      BucketHomes(from, i);
      CopyBucket(from, to, i);
      i := i + 1;
    }
    assert to.flows == from.flows;
  }

  lemma BucketHomes(ti: TableInstance, i: nat)
    requires ti.Valid() && i < ti.buckets.Length
    ensures |ti.chains| == ti.buckets.Length
    ensures forall f :: f in ti.chains[i] <==> f in ti.flows && ti.HomeMap()[f] == i
  {
    hide PowerOfTwo, Linked;
    var home := ti.HomeMap();
    assert BucketOk(i, ti.buckets[..][i], ti.chains[i], NextMap(ti.flows, ti.ver), home);
    forall f | f in ti.flows && home[f] == i ensures f in ti.chains[i] {
      assert f in home;
    }
  }
}
