/** The datapath's flow table: flows under masks, looked up by scanning the
    masks, sped up by a cache of mask positions that is never kept in step. */
module MegaflowTable {
  import opened Arithmetic
  import opened Options
  import opened Words
  import opened FlowInstance
  import MA = MaskArray

  const TBL_MIN_BUCKETS: nat := 1024
  const MC_HASH_ENTRIES: nat := 256
  const MC_HASH_SEGS: nat := 4

  /** A mask: the words [start, start + |words|) of the key it covers. */
  datatype MaskDesc = MaskDesc(start: nat, words: seq<Word>)

  datatype CacheEntry = CacheEntry(skbHash: nat, maskIndex: nat)

  predicate Covers(d: MaskDesc, keyLen: nat) {
    d.start + |d.words| <= keyLen
  }

  /** ovs_flow_mask_key, restricted to the mask's range. */
  function MaskedKey(key: seq<Word>, d: MaskDesc): (r: seq<Word>)
    requires Covers(d, |key|)
    ensures |r| == |d.words|
  {
    seq(|d.words|, i requires 0 <= i < |d.words| => And(key[d.start + i], d.words[i]))
  }

  /** Masked keys are equal exactly if the keys agree where the mask has ones. */
  lemma MaskedAgree(a: seq<Word>, b: seq<Word>, d: MaskDesc)
    requires |a| == |b| && Covers(d, |a|)
    ensures MaskedKey(a, d) == MaskedKey(b, d) <==>
              forall i, j :: 0 <= i < |d.words| && 0 <= j < 32 && d.words[i][j] ==> a[d.start + i][j] == b[d.start + i][j]
  {
    hide And;
    forall i | 0 <= i < |d.words|
      ensures And(a[d.start + i], d.words[i]) == And(b[d.start + i], d.words[i]) <==>
                forall j :: 0 <= j < 32 && d.words[i][j] ==> a[d.start + i][j] == b[d.start + i][j]
    {
      AndAgree(a[d.start + i], b[d.start + i], d.words[i]);
    }
    if MaskedKey(a, d) == MaskedKey(b, d) {
      forall i | 0 <= i < |d.words| ensures And(a[d.start + i], d.words[i]) == And(b[d.start + i], d.words[i]) {
        assert MaskedKey(a, d)[i] == MaskedKey(b, d)[i];
      }
    }
  }

  lemma AndAgree(x: Word, y: Word, m: Word)
    ensures And(x, m) == And(y, m) <==> forall j :: 0 <= j < 32 && m[j] ==> x[j] == y[j]
  {
    if And(x, m) == And(y, m) {
      forall j | 0 <= j < 32 && m[j] ensures x[j] == y[j] {
        assert And(x, m)[j] == And(y, m)[j];
      }
    }
  }

  /** The flow matches the key under its own mask. */
  ghost predicate FlowMatches(f: SwFlow, key: seq<Word>, desc: map<nat, MaskDesc>)
    reads f
  {
    f.mask in desc && Covers(desc[f.mask], |key|) && KeyMatches(f.key, desc[f.mask].start, MaskedKey(key, desc[f.mask]))
  }

  ghost predicate OnlyMatch(g: SwFlow, flows: set<SwFlow>, key: seq<Word>, desc: map<nat, MaskDesc>)
    reads g, flows
  {
    FlowMatches(g, key, desc) && forall h :: h in flows && FlowMatches(h, key, desc) ==> h == g
  }

  /** The flow is under the mask in slot i, and no flow under a mask in an
      earlier slot matches. */
  ghost predicate FirstHit(slots: MA.Slots, flows: set<SwFlow>, key: seq<Word>, desc: map<nat, MaskDesc>, i: nat, f: SwFlow)
    reads f, flows
  {
    && i < |slots| && f in flows && slots[i] == Some(f.mask)
    && forall g :: g in flows && Some(g.mask) in slots[..i] ==> !FlowMatches(g, key, desc)
  }

  // ------------------------------------------------ the mask cache

  /** The k-th place to look for a hash: its k-th byte. */
  function Spot(h: nat, k: nat): (e: nat)
    ensures e < MC_HASH_ENTRIES
  {
    if k == 0 then h % MC_HASH_ENTRIES else Spot(h / MC_HASH_ENTRIES, k - 1)
  }

  /** The first of a hash's places that has it leads to this slot. */
  ghost predicate Remembers(c: seq<CacheEntry>, h: nat, slot: nat)
    requires |c| == MC_HASH_ENTRIES
  {
    exists k :: 0 <= k < MC_HASH_SEGS && FirstAt(c, h, k) && c[Spot(h, k)].maskIndex == slot
  }

  ghost predicate FirstAt(c: seq<CacheEntry>, h: nat, k: nat)
    requires |c| == MC_HASH_ENTRIES
  {
    c[Spot(h, k)].skbHash == h && NotBefore(c, h, k)
  }

  ghost predicate NotBefore(c: seq<CacheEntry>, h: nat, k: nat)
    requires |c| == MC_HASH_ENTRIES
  {
    forall j :: 0 <= j < k ==> c[Spot(h, j)].skbHash != h
  }

  /** The first place that has the hash says which slot. */
  lemma RemembersOne(c: seq<CacheEntry>, h: nat, k: nat, slot: nat)
    requires |c| == MC_HASH_ENTRIES && Remembers(c, h, slot)
    ensures k < MC_HASH_SEGS && FirstAt(c, h, k) ==> c[Spot(h, k)].maskIndex == slot
    ensures !NotBefore(c, h, MC_HASH_SEGS)
  {
    hide Spot;
  }

  /** An entry written at one of the places, none of which had the hash. */
  lemma {:induction false} Remembered(c: seq<CacheEntry>, c': seq<CacheEntry>, h: nat, k: nat, slot: nat)
    requires |c| == |c'| == MC_HASH_ENTRIES && k < MC_HASH_SEGS && NotBefore(c, h, k)
    requires c' == c[Spot(h, k) := CacheEntry(h, slot)]
    ensures Remembers(c', h, slot)
    decreases k
  {
    hide Spot;
    if j :| 0 <= j < k && Spot(h, j) == Spot(h, k) {
      Remembered(c, c', h, j, slot);
    } else {
      assert FirstAt(c', h, k);
    }
  }

  lemma NoneBefore(c: seq<CacheEntry>, h: nat)
    requires |c| == MC_HASH_ENTRIES
    ensures NotBefore(c, h, 0)
  {
  }

  lemma NotHere(c: seq<CacheEntry>, h: nat, k: nat)
    requires |c| == MC_HASH_ENTRIES && NotBefore(c, h, k) && c[Spot(h, k)].skbHash != h
    ensures NotBefore(c, h, k + 1)
  {
    hide Spot;
  }

  lemma OnlyHere(c: seq<CacheEntry>, h: nat, k: nat)
    requires |c| == MC_HASH_ENTRIES && k < MC_HASH_SEGS && NotBefore(c, h, k) && c[Spot(h, k)].skbHash == h
    ensures Remembers(c, h, c[Spot(h, k)].maskIndex)
    ensures forall slot :: Remembers(c, h, slot) ==> slot == c[Spot(h, k)].maskIndex
  {
    hide Spot, Remembers;
    assert FirstAt(c, h, k);
    assert Remembers(c, h, c[Spot(h, k)].maskIndex) by { FirstRemembers(c, h, k); }
    forall slot | Remembers(c, h, slot) ensures slot == c[Spot(h, k)].maskIndex {
      RemembersOne(c, h, k, slot);
    }
  }

  lemma FirstRemembers(c: seq<CacheEntry>, h: nat, k: nat)
    requires |c| == MC_HASH_ENTRIES && k < MC_HASH_SEGS && FirstAt(c, h, k)
    ensures Remembers(c, h, c[Spot(h, k)].maskIndex)
  {
    hide Spot, FirstAt;
  }

  lemma Forgotten(c: seq<CacheEntry>, c': seq<CacheEntry>, h: nat, k: nat)
    requires |c| == |c'| == MC_HASH_ENTRIES && NotBefore(c, h, k) && h != 0 && c' == c[Spot(h, k) := c[Spot(h, k)].(skbHash := 0)]
    ensures NotBefore(c', h, k)
  {
    hide Spot;
  }

  lemma NotRemembered(c: seq<CacheEntry>, h: nat, k: nat)
    requires |c| == MC_HASH_ENTRIES && k <= MC_HASH_SEGS && NotBefore(c, h, MC_HASH_SEGS)
    ensures NotBefore(c, h, k) && forall slot :: !Remembers(c, h, slot)
  {
    hide Spot;
  }

  // ------------------------------------------------ flows and reference counts

  datatype FlowInfo = FlowInfo(key: seq<Word>, hash: Word, mask: nat)

  ghost function Info(flows: set<SwFlow>): map<SwFlow, FlowInfo>
    reads flows
  {
    map f | f in flows :: FlowInfo(f.key, f.hash, f.mask)
  }

  lemma InfoOf(flows: set<SwFlow>, f: SwFlow)
    ensures f in Info(flows) <==> f in flows
    ensures f in flows ==> Info(flows)[f] == FlowInfo(f.key, f.hash, f.mask)
  {
  }

  /** The flows under a mask. */
  ghost function UsersOf(info: map<SwFlow, FlowInfo>, m: nat): set<SwFlow> {
    set f | f in info && info[f].mask == m
  }

  /** A count is at least the number of flows under the mask, and exactly that
      if the table was never flushed. */
  ghost predicate CountOk(n: nat, info: map<SwFlow, FlowInfo>, m: nat, flushed: bool) {
    n > 0 && n >= |UsersOf(info, m)| && (!flushed ==> n == |UsersOf(info, m)|)
  }

  ghost predicate RefsOk(refs: map<nat, nat>, info: map<SwFlow, FlowInfo>, flushed: bool) {
    && (forall f :: f in info ==> info[f].mask in refs)
    && forall m :: m in refs ==> CountOk(refs[m], info, m, flushed)
  }

  /** A flow lies under a mask of the table and carries the hash of the words
      the mask covers. */
  ghost predicate InfoOk(x: FlowInfo, desc: map<nat, MaskDesc>, keyLen: nat, hashKey: seq<Word> -> Word) {
    && x.mask in desc && |x.key| == keyLen && Covers(desc[x.mask], keyLen)
    && x.hash == hashKey(x.key[desc[x.mask].start..desc[x.mask].start + |desc[x.mask].words|])
  }

  ghost predicate FlowsOk(info: map<SwFlow, FlowInfo>, desc: map<nat, MaskDesc>, keyLen: nat, hashKey: seq<Word> -> Word) {
    forall f :: f in info ==> InfoOk(info[f], desc, keyLen, hashKey)
  }

  /** The masks are pairwise different, inside the key, and all counted. */
  ghost predicate MasksOk(live: set<nat>, refs: map<nat, nat>, desc: map<nat, MaskDesc>, keyLen: nat) {
    && refs.Keys == desc.Keys == live
    && (forall m :: m in desc ==> Covers(desc[m], keyLen))
    && (forall m, n :: m in desc && n in desc && m != n ==> desc[m] != desc[n])
  }

  function Bumped(refs: map<nat, nat>, m: nat): map<nat, nat> {
    refs[m := if m in refs then refs[m] + 1 else 1]
  }

  function Dropped(refs: map<nat, nat>, m: nat): map<nat, nat>
    requires m in refs && refs[m] > 0
  {
    if refs[m] == 1 then refs - {m} else refs[m := refs[m] - 1]
  }

  function DescDropped(refs: map<nat, nat>, desc: map<nat, MaskDesc>, m: nat): map<nat, MaskDesc> {
    if m in refs && refs[m] == 1 then desc - {m} else desc
  }

  lemma UsersAdd(info: map<SwFlow, FlowInfo>, f: SwFlow, x: FlowInfo, k: nat)
    requires f !in info
    ensures |UsersOf(info[f := x], k)| == |UsersOf(info, k)| + if k == x.mask then 1 else 0
  {
    if k == x.mask {
      assert UsersOf(info[f := x], k) == UsersOf(info, k) + {f};
    } else {
      assert UsersOf(info[f := x], k) == UsersOf(info, k);
    }
  }

  lemma RefsAdd(refs: map<nat, nat>, info: map<SwFlow, FlowInfo>, flushed: bool, f: SwFlow, x: FlowInfo)
    requires RefsOk(refs, info, flushed) && f !in info
    ensures RefsOk(Bumped(refs, x.mask), info[f := x], flushed)
  {
    hide UsersOf;
    var refs1 := Bumped(refs, x.mask);
    forall k | k in refs1 ensures CountOk(refs1[k], info[f := x], k, flushed) {
      UsersAdd(info, f, x, k);
      if k !in refs {
        NoUsers(refs, info, flushed, k);
      }
    }
  }

  lemma NoUsers(refs: map<nat, nat>, info: map<SwFlow, FlowInfo>, flushed: bool, m: nat)
    requires RefsOk(refs, info, flushed) && m !in refs
    ensures UsersOf(info, m) == {}
  {
  }

  /** Dropping a reference; at zero no other flow is left under the mask. */
  lemma RefsSub(refs: map<nat, nat>, info: map<SwFlow, FlowInfo>, flushed: bool, f: SwFlow)
    requires RefsOk(refs, info, flushed) && f in info
    ensures info[f].mask in refs && refs[info[f].mask] > 0
    ensures RefsOk(Dropped(refs, info[f].mask), info - {f}, flushed)
  {
    hide UsersOf;
    var x, rest := info[f], info - {f};
    assert rest[f := x] == info;
    var refs1 := Dropped(refs, x.mask);
    UsersAdd(rest, f, x, x.mask);
    forall g | g in rest ensures rest[g].mask in refs1 {
      if rest[g].mask == x.mask {
        HasUser(rest, g);
      }
    }
    forall k | k in refs1 ensures CountOk(refs1[k], rest, k, flushed) {
      UsersAdd(rest, f, x, k);
    }
  }

  lemma HasUser(info: map<SwFlow, FlowInfo>, g: SwFlow)
    requires g in info
    ensures |UsersOf(info, info[g].mask)| > 0
  {
    assert g in UsersOf(info, info[g].mask);
  }

  lemma RefsFlushed(refs: map<nat, nat>, info: map<SwFlow, FlowInfo>, flushed: bool)
    requires RefsOk(refs, info, flushed)
    ensures RefsOk(refs, map[], true)
  {
    forall m | m in refs ensures CountOk(refs[m], map[], m, true) {
      assert UsersOf(map[], m) == {};
    }
  }

  lemma FlowsAdd(info: map<SwFlow, FlowInfo>, desc: map<nat, MaskDesc>, keyLen: nat, hashKey: seq<Word> -> Word,
                 m: nat, d: MaskDesc, f: SwFlow, x: FlowInfo)
    requires FlowsOk(info, desc, keyLen, hashKey) && (m in desc ==> desc[m] == d)
    requires x.mask == m && InfoOk(x, desc[m := d], keyLen, hashKey)
    ensures FlowsOk(info[f := x], desc[m := d], keyLen, hashKey)
  {
    var desc1 := desc[m := d];
    forall g | g in info ensures InfoOk(info[g], desc1, keyLen, hashKey) {
      assert InfoOk(info[g], desc, keyLen, hashKey);
    }
  }

  lemma FlowsSub(info: map<SwFlow, FlowInfo>, refs: map<nat, nat>, desc: map<nat, MaskDesc>, keyLen: nat, hashKey: seq<Word> -> Word,
                 flushed: bool, f: SwFlow)
    requires FlowsOk(info, desc, keyLen, hashKey) && f in info && info[f].mask in refs && refs[info[f].mask] > 0
    requires RefsOk(Dropped(refs, info[f].mask), info - {f}, flushed)
    ensures FlowsOk(info - {f}, DescDropped(refs, desc, info[f].mask), keyLen, hashKey)
  {
    var rest, desc1 := info - {f}, DescDropped(refs, desc, info[f].mask);
    forall g | g in rest ensures InfoOk(rest[g], desc1, keyLen, hashKey) {
      assert InfoOk(info[g], desc, keyLen, hashKey);
      assert rest[g].mask in Dropped(refs, info[f].mask);
    }
  }

  // ------------------------------------------------ no flow twice

  /** The words of a key that a mask covers. */
  function RangeOf(key: seq<Word>, d: MaskDesc): seq<Word> {
    if Covers(d, |key|) then key[d.start..d.start + |d.words|] else []
  }

  /** No two flows under one mask have the same words there. */
  ghost predicate NoTwins(info: map<SwFlow, FlowInfo>, desc: map<nat, MaskDesc>) {
    forall f, g :: f in info && g in info && Twins(info, desc, f, g) ==> f == g
  }

  ghost predicate Twins(info: map<SwFlow, FlowInfo>, desc: map<nat, MaskDesc>, f: SwFlow, g: SwFlow) {
    && f in info && g in info && info[f].mask == info[g].mask
    && info[f].mask in desc && Same(info[f], info[g], desc[info[f].mask])
  }

  predicate Same(x: FlowInfo, y: FlowInfo, d: MaskDesc) {
    RangeOf(x.key, d) == RangeOf(y.key, d)
  }

  lemma TwinsAdd(info: map<SwFlow, FlowInfo>, desc: map<nat, MaskDesc>, keyLen: nat, hashKey: seq<Word> -> Word,
                 m: nat, d: MaskDesc, f: SwFlow, x: FlowInfo)
    requires NoTwins(info, desc) && FlowsOk(info, desc, keyLen, hashKey) && (m in desc ==> desc[m] == d)
    requires f !in info && x.mask == m && forall g :: g in info && info[g].mask == m ==> !Same(info[g], x, d)
    ensures NoTwins(info[f := x], desc[m := d])
  {
    hide Same;
    var info1, desc1 := info[f := x], desc[m := d];
    forall p, q | p in info1 && q in info1 && Twins(info1, desc1, p, q) ensures p == q {
      SameSym(info1[p], info1[q], d);
      if p != f && q != f {
        assert InfoOk(info[p], desc, keyLen, hashKey);
        assert Twins(info, desc, p, q);
      }
    }
  }

  predicate InfoMatches(x: FlowInfo, key: seq<Word>, desc: map<nat, MaskDesc>) {
    x.mask in desc && Covers(desc[x.mask], |key|) && KeyMatches(x.key, desc[x.mask].start, MaskedKey(key, desc[x.mask]))
  }

  /** A flow made from a key that nothing matches has no twin, and is then the
      one flow that matches the key. */
  lemma OnlyNew(info: map<SwFlow, FlowInfo>, desc: map<nat, MaskDesc>, keyLen: nat, hashKey: seq<Word> -> Word,
                m: nat, d: MaskDesc, x: FlowInfo, key: seq<Word>)
    requires FlowsOk(info, desc, keyLen, hashKey) && (m in desc ==> desc[m] == d) && Covers(d, keyLen) && |key| == |x.key| == keyLen
    requires x.mask == m && RangeOf(x.key, d) == MaskedKey(key, d)
    requires forall g :: g in info ==> !InfoMatches(info[g], key, desc)
    ensures forall g :: g in info && info[g].mask == m ==> !Same(info[g], x, d)
    ensures InfoMatches(x, key, desc[m := d]) && forall g :: g in info ==> !InfoMatches(info[g], key, desc[m := d])
  {
    hide MaskedKey;
    forall g | g in info ensures (info[g].mask == m ==> !Same(info[g], x, d)) && !InfoMatches(info[g], key, desc[m := d]) {
      assert InfoOk(info[g], desc, keyLen, hashKey) && !InfoMatches(info[g], key, desc);
    }
  }

  lemma InfoMisses(flows: set<SwFlow>, key: seq<Word>, desc: map<nat, MaskDesc>)
    requires forall g :: g in flows ==> !FlowMatches(g, key, desc)
    ensures forall g :: g in Info(flows) ==> !InfoMatches(Info(flows)[g], key, desc)
  {
  }

  lemma OnlyFrom(flows: set<SwFlow>, info: map<SwFlow, FlowInfo>, key: seq<Word>, desc: map<nat, MaskDesc>, f: SwFlow)
    requires f !in info && Info(flows) == info[f := FlowInfo(f.key, f.hash, f.mask)]
    requires InfoMatches(FlowInfo(f.key, f.hash, f.mask), key, desc) && forall g :: g in info ==> !InfoMatches(info[g], key, desc)
    ensures OnlyMatch(f, flows, key, desc)
  {
    forall h | h in flows && FlowMatches(h, key, desc) ensures h == f {
      InfoOf(flows, h);
      assert h != f ==> h in info && info[h] == FlowInfo(h.key, h.hash, h.mask);
    }
  }

  lemma SameSym(x: FlowInfo, y: FlowInfo, d: MaskDesc)
    ensures Same(x, y, d) <==> Same(y, x, d)
  {
  }

  lemma TwinsSub(info: map<SwFlow, FlowInfo>, desc: map<nat, MaskDesc>, gone: set<SwFlow>, some: set<nat>)
    requires NoTwins(info, desc)
    ensures NoTwins(info - gone, desc - some)
  {
    hide Same;
    forall f, g | f in info - gone && g in info - gone && Twins(info - gone, desc - some, f, g) ensures f == g {
      assert Twins(info, desc, f, g);
    }
  }

  lemma TwinsDropped(info: map<SwFlow, FlowInfo>, refs: map<nat, nat>, desc: map<nat, MaskDesc>, f: SwFlow, m: nat)
    ensures NoTwins(info, desc) ==> NoTwins(info - {f}, DescDropped(refs, desc, m))
  {
    hide NoTwins;
    if NoTwins(info, desc) {
      TwinsSub(info, desc, {f}, {m});
      TwinsSub(info, desc, {f}, {});
      assert desc - {} == desc;
    }
  }

  /** Without twins the result of a scan is determined by the masks, their
      order and the flows: the scan before and after a rehash agree. */
  lemma FirstHitUnique(slots: MA.Slots, flows: set<SwFlow>, key: seq<Word>, desc: map<nat, MaskDesc>, i: nat, f: SwFlow, j: nat, g: SwFlow)
    requires NoTwins(Info(flows), desc)
    requires FirstHit(slots, flows, key, desc, i, f) && FlowMatches(f, key, desc)
    requires FirstHit(slots, flows, key, desc, j, g) && FlowMatches(g, key, desc)
    ensures f == g
  {
    hide MaskedKey;
    Earlier(slots, i, j);
    Earlier(slots, j, i);
    assert i == j;
    var info := Info(flows);
    assert Same(info[f], info[g], desc[f.mask]);
    assert Twins(info, desc, f, g);
  }

  lemma Earlier(slots: MA.Slots, i: nat, j: nat)
    requires i < |slots| && j < |slots|
    ensures i < j ==> slots[i] in slots[..j]
  {
    if i < j {
      assert slots[..j][i] == slots[i];
    }
  }

  lemma MasksAdd(live: set<nat>, refs: map<nat, nat>, desc: map<nat, MaskDesc>, keyLen: nat, m: nat, d: MaskDesc)
    requires MasksOk(live, refs, desc, keyLen) && Covers(d, keyLen) && m !in live
    requires forall k :: k in desc ==> desc[k] != d
    ensures MasksOk(live + {m}, Bumped(refs, m), desc[m := d], keyLen)
  {
  }

  lemma MasksSub(live: set<nat>, refs: map<nat, nat>, desc: map<nat, MaskDesc>, keyLen: nat, m: nat)
    requires MasksOk(live, refs, desc, keyLen) && m in refs && refs[m] > 0
    ensures MasksOk(if refs[m] == 1 then live - {m} else live, Dropped(refs, m), DescDropped(refs, desc, m), keyLen)
  {
  }

  class FlowTable {
    const keyLen: nat
    const hashKey: seq<Word> -> Word
    const cache: array<CacheEntry>
    const masks: MA.Masks
    var ti: TableInstance
    var refs: map<nat, nat>
    var desc: map<nat, MaskDesc>
    var count: nat
    /** Whether the table was ever flushed; a flush leaves the masks. */
    ghost var flushed: bool

    ghost predicate Valid()
      reads this, masks, masks.masks, ti, ti.buckets, ti.flows
    {
      && cache.Length == MC_HASH_ENTRIES && count == |ti.flows|
      && ti.Valid() && masks.Valid() && MasksOk(masks.Set(), refs, desc, keyLen)
      && RefsOk(refs, Info(ti.flows), flushed) && FlowsOk(Info(ti.flows), desc, keyLen, hashKey)
    }

    /** ovs_flow_tbl_init. */
    constructor (keyLen: nat, hashKey: seq<Word> -> Word, jhash: (Word, Word) -> nat, seed: Word)
      ensures Valid() && ti.flows == {} && desc == map[] && !flushed
      ensures fresh(ti) && fresh(ti.buckets) && fresh(masks) && fresh(masks.masks) && fresh(cache)
    {
      this.keyLen, this.hashKey := keyLen, hashKey;
      cache := new CacheEntry[MC_HASH_ENTRIES](i => CacheEntry(0, 0));
      masks := new MA.Masks();
      MinBuckets();
      ti := new TableInstance(TBL_MIN_BUCKETS, false, seed, jhash);
      refs, desc, count := map[], map[], 0;
      flushed := false;
    }

    /** masked_flow_lookup. */
    method MaskedLookup(key: seq<Word>, m: nat) returns (f: SwFlow?)
      requires Valid() && |key| == keyLen && m in desc
      ensures f != null ==> f in ti.flows && f.mask == m && FlowMatches(f, key, desc)
      ensures f == null ==> forall g :: g in ti.flows && g.mask == m ==> !FlowMatches(g, key, desc)
    {
      hide TableInstance.Valid, PowerOfTwo, RefsOk, MA.SlotsOk, MA.Live, MaskedKey;
      var d := desc[m];
      var masked := MaskedKey(key, d);
      var hash := hashKey(masked);
      f := ti.Find(m, hash, d.start, masked);
      if f == null {
        forall g | g in ti.flows && g.mask == m ensures !FlowMatches(g, key, desc) {
          assert InfoOk(Info(ti.flows)[g], desc, keyLen, hashKey) && !Hit(g, m, hash, d.start, masked);
        }
      }
    }

    /** flow_lookup: the plain scan over the masks. */
    method Scan(key: seq<Word>) returns (f: SwFlow?, index: nat)
      requires Valid() && |key| == keyLen
      ensures f != null ==> f in ti.flows && FlowMatches(f, key, desc) && FirstHit(masks.masks[..], ti.flows, key, desc, index, f)
      ensures f == null ==> forall g :: g in ti.flows ==> !FlowMatches(g, key, desc)
    {
      hide TableInstance.Valid, PowerOfTwo, RefsOk, MA.SlotsOk, MA.Live, FlowMatches;
      var i := 0;
      index := 0;
      ghost var s := masks.masks[..];
      while i < masks.masks.Length && masks.masks[i].Some?
        invariant i <= masks.masks.Length
        invariant forall g :: g in ti.flows && Some(g.mask) in s[..i] ==> !FlowMatches(g, key, desc)
      {
        MA.SlotIsLive(s, masks.count, i);
        f := MaskedLookup(key, masks.masks[i].value);
        if f != null {
          index := i;
          assert s[i] == Some(f.mask);
          return;
        }
        assert s[..i + 1] == s[..i] + [s[i]];
        i := i + 1;
      }
      f := null;
      MA.SlotsSize(s, masks.count);
      forall g | g in ti.flows ensures !FlowMatches(g, key, desc) {
        assert InfoOk(Info(ti.flows)[g], desc, keyLen, hashKey);
        MA.ScanSeesAll(s, masks.count, i, g.mask);
      }
    }

    /** ovs_flow_tbl_lookup_stats: whatever the cache holds, a flow is found
        exactly when the scan finds one, it matches, and if only one flow
        matches it is that one.  The mask it was found under is remembered for
        the hash, and one that is remembered is tried first. */
    method LookupStats(key: seq<Word>, skbHash: nat) returns (f: SwFlow?)
      requires Valid() && |key| == keyLen
      modifies cache
      ensures Valid()
      ensures f != null ==> f in ti.flows && FlowMatches(f, key, desc)
      ensures f == null ==> forall g :: g in ti.flows ==> !FlowMatches(g, key, desc)
      ensures forall g :: g in ti.flows && OnlyMatch(g, ti.flows, key, desc) ==> f == g
      ensures f != null && skbHash != 0 ==> exists i :: 0 <= i < masks.masks.Length && masks.masks[i] == Some(f.mask) && Remembers(cache[..], skbHash, i)
      ensures skbHash != 0 ==> forall i, g :: 0 <= i < masks.masks.Length && g in ti.flows && masks.masks[i] == Some(g.mask) ==>
                old(Remembers(cache[..], skbHash, i)) && FlowMatches(g, key, desc) ==> f != null && f.mask == g.mask
    {
      hide TableInstance.Valid, PowerOfTwo, RefsOk, FlowsOk, Info, MA.SlotsOk, MA.Live, FlowMatches, Remembers, FirstAt, NotBefore, Spot;
      var index;
      if skbHash == 0 {
        f, index := Scan(key);
        return;
      }
      var hit, k;
      f, hit, k := FindEntry(key, skbHash);
      if !hit {
        f, index := Scan(key);
        if f != null {
          Remembered(cache[..], cache[..][Spot(skbHash, k) := CacheEntry(skbHash, index)], skbHash, k, index);
          cache[Spot(skbHash, k)] := CacheEntry(skbHash, index);
        }
      }
    }

    /** The loop over the cache: a flow through the entry of the hash, or the
        entry to replace. */
    method FindEntry(key: seq<Word>, skbHash: nat) returns (f: SwFlow?, hit: bool, k: nat)
      requires Valid() && |key| == keyLen && skbHash != 0
      modifies cache
      ensures Valid() && k < MC_HASH_SEGS
      ensures hit ==> f != null && f in ti.flows && FlowMatches(f, key, desc)
      ensures hit ==> exists i :: 0 <= i < masks.masks.Length && masks.masks[i] == Some(f.mask) && Remembers(cache[..], skbHash, i)
      ensures !hit ==> NotBefore(cache[..], skbHash, k)
      ensures forall i, g :: 0 <= i < masks.masks.Length && g in ti.flows && masks.masks[i] == Some(g.mask) ==>
                old(Remembers(cache[..], skbHash, i)) && FlowMatches(g, key, desc) ==> hit && f.mask == g.mask
    {
      hide TableInstance.Valid, PowerOfTwo, RefsOk, FlowsOk, Info, MA.SlotsOk, MA.Live, FlowMatches, Remembers, FirstAt, NotBefore;
      ghost var c := cache[..];
      var hash: nat, seg: nat := skbHash, 0;
      k := 0;
      NoneBefore(c, skbHash);
      while seg < MC_HASH_SEGS
        invariant seg <= MC_HASH_SEGS && k < MC_HASH_SEGS && (seg > 0 ==> k < seg) && cache[..] == c && NotBefore(c, skbHash, seg)
        invariant forall j: nat :: Spot(skbHash, seg + j) == Spot(hash, j)
      {
        var e := hash % MC_HASH_ENTRIES;
        assert e == Spot(hash, 0) == Spot(skbHash, seg + 0);
        if cache[e].skbHash == skbHash {
          var i := cache[e].maskIndex;
          OnlyHere(c, skbHash, seg);
          if i < masks.masks.Length && masks.masks[i].Some? {
            MA.SlotIsLive(masks.masks[..], masks.count, i);
            f := MaskedLookup(key, masks.masks[i].value);
            if f != null {
              return f, true, seg;
            }
          }
          cache[e] := cache[e].(skbHash := 0);
          Forgotten(c, cache[..], skbHash, seg);
          return null, false, seg;
        }
        NotHere(c, skbHash, seg);
        if seg == 0 || cache[e].skbHash < cache[Spot(skbHash, k)].skbHash {
          k := seg;
        }
        assert forall j: nat :: Spot(hash / MC_HASH_ENTRIES, j) == Spot(hash, 1 + j);
        hash := hash / MC_HASH_ENTRIES;
        seg := seg + 1;
      }
      NotRemembered(c, skbHash, k);
      return null, false, k;
    }

    /** flow_mask_find. */
    method FindMask(d: MaskDesc) returns (m: Option<nat>)
      requires Valid()
      ensures m.Some? ==> m.value in desc && desc[m.value] == d
      ensures m.None? ==> forall k :: k in desc ==> desc[k] != d
    {
      hide TableInstance.Valid, PowerOfTwo, RefsOk, FlowsOk, Info, MA.SlotsOk, MA.Live;
      ghost var s := masks.masks[..];
      MA.SlotsSize(s, masks.count);
      var i := 0;
      while i < masks.count
        invariant i <= masks.count
        invariant forall k :: Some(k) in s[..i] ==> k in desc && desc[k] != d
      {
        MA.LiveSlot(s, masks.count, i);
        var k := masks.masks[i].value;
        if desc[k] == d {
          return Some(k);
        }
        assert s[..i + 1] == s[..i] + [s[i]];
        i := i + 1;
      }
      m := None;
      forall k | k in desc ensures desc[k] != d {
        MA.ScanSeesAll(s, masks.count, i, k);
      }
    }

    /** flow_mask_insert: find an equal mask or add a new one.  'newMask' is
        the newly allocated mask, None if there is no memory for it; 'grow'
        says whether there is memory for a longer array. */
    method TakeMask(d: MaskDesc, newMask: Option<nat>, grow: bool) returns (m: Option<nat>)
      requires Valid() && Covers(d, keyLen) && (newMask.Some? ==> newMask.value !in desc)
      modifies this`refs, this`desc, masks, masks.masks
      ensures masks.Valid() && MasksOk(masks.Set(), refs, desc, keyLen) && fresh({masks.masks} - old({masks.masks}))
      ensures m.None? ==> refs == old(refs) && desc == old(desc)
      ensures m.Some? ==> desc == old(desc)[m.value := d] && refs == Bumped(old(refs), m.value)
      ensures m.Some? && m.value in old(desc) ==> old(desc)[m.value] == d
      ensures m.None? == ((forall k :: k in old(desc) ==> old(desc)[k] != d) &&
        (newMask.None? || (old(masks.count) >= old(masks.masks.Length) && !grow)))
    {
      hide TableInstance.Valid, PowerOfTwo, RefsOk, FlowsOk, Info, MA.SlotsOk, MA.Live;
      m := FindMask(d);
      if m.Some? {
        refs := Bumped(refs, m.value);
        assert desc == old(desc)[m.value := d];
        return;
      }
      if newMask.None? {
        return;
      }
      if masks.count >= masks.masks.Length && !grow {
        return;
      }
      m := newMask;
      MasksAdd(masks.Set(), refs, desc, keyLen, m.value, d);
      AddMask(m.value);
      desc := desc[m.value := d];
      refs := Bumped(refs, m.value);
    }

    method AddMask(m: nat)
      requires masks.Valid() && m !in masks.Set()
      modifies masks, masks.masks
      ensures masks.Valid() && masks.Set() == old(masks.Set()) + {m}
      ensures fresh({masks.masks} - old({masks.masks}))
      ensures masks.masks.Length == old(masks.masks.Length) + if old(masks.count >= masks.masks.Length) then 16 else 0
    {
      hide MA.SlotsOk, MA.Live;
      MA.SlotsSize(masks.masks[..], masks.count);
      if masks.count >= masks.masks.Length {
        var size := masks.masks.Length + MA.MASK_ARRAY_SIZE_MIN;
        masks.Realloc(size);
        assert |masks.masks[..]| == size;
      }
      masks.Append(m);
    }

    /** The part of ovs_flow_tbl_insert between mask and rehash. */
    method Place(flow: SwFlow, m: nat)
      requires ti.Valid() && flow !in ti.flows && m in desc && Covers(desc[m], |flow.key|)
      modifies this`count, ti`chains, ti`flows, ti.buckets, flow`hash, flow`mask, flow`next0, flow`next1
      ensures ti.Valid() && ti.flows == old(ti.flows) + {flow} && count == old(count) + 1 && flow.mask == m
      ensures flow.hash == hashKey(flow.key[desc[m].start..desc[m].start + |desc[m].words|])
      ensures Info(ti.flows) == old(Info(ti.flows))[flow := FlowInfo(flow.key, flow.hash, flow.mask)]
    {
      hide TableInstance.Valid, PowerOfTwo;
      var d := desc[m];
      flow.mask, flow.hash := m, hashKey(flow.key[d.start..d.start + |d.words|]);
      ti.Insert(flow);
      count := count + 1;
    }

    method Rehashed(size: nat, seed: Word) returns (to: TableInstance)
      requires ti.Valid() && PowerOfTwo(size)
      modifies ti.flows`next0, ti.flows`next1
      ensures fresh(to) && fresh(to.buckets) && to.Valid() && to.flows == ti.flows && to.buckets.Length == size && to.ver == !ti.ver && to.seed == seed
      ensures ti.Valid() && Info(to.flows) == old(Info(ti.flows))
    {
      hide TableInstance.Valid, PowerOfTwo;
      to := Rehash(ti, size, seed);
    }

    /** The end of ovs_flow_tbl_insert: grow when crowded, or change the seed
        when 'due', if there is memory for it. */
    method Resize(due: bool, memory: bool, seed: Word)
      requires Valid()
      modifies this`ti, ti.flows`next0, ti.flows`next1
      ensures Valid() && ti.flows == old(ti.flows) && Info(ti.flows) == old(Info(ti.flows))
      ensures ti == old(ti) || (fresh(ti) && fresh(ti.buckets) && ti.ver == !old(ti).ver && ti.seed == seed)
      ensures ti != old(ti) <==> memory && (count > old(ti).buckets.Length || due)
      ensures ti.buckets.Length == if memory && count > old(ti).buckets.Length then 2 * old(ti).buckets.Length else old(ti).buckets.Length
    {
      hide TableInstance.Valid, PowerOfTwo, RefsOk, FlowsOk, MasksOk, MA.SlotsOk, MA.Live, Info;
      var n := ti.buckets.Length;
      if memory && (count > n || due) {
        Doubled(ti);
        ti := Rehashed(if count > n then 2 * n else n, seed);
      }
    }

    /** ovs_flow_tbl_insert: fails only for want of memory, and then leaves
        flows, masks and counts as they were. */
    method Insert(flow: SwFlow, d: MaskDesc, newMask: Option<nat>, grow: bool, due: bool, memory: bool, seed: Word) returns (ok: bool)
      requires Valid() && flow !in ti.flows && |flow.key| == keyLen
      requires Covers(d, keyLen) && (newMask.Some? ==> newMask.value !in desc)
      modifies this`ti, this`count, this`refs, this`desc, masks, masks.masks
      modifies ti`chains, ti`flows, ti.buckets, flow`hash, flow`mask, flow`next0, flow`next1, ti.flows`next0, ti.flows`next1
      ensures Valid()
      ensures !ok ==> ti == old(ti) && ti.flows == old(ti.flows) && refs == old(refs) && desc == old(desc)
      ensures ok ==> ti.flows == old(ti.flows) + {flow}
      ensures ok ==> desc == old(desc)[flow.mask := d] && refs == Bumped(old(refs), flow.mask)
      ensures ok ==> (flow.mask in old(desc) ==> old(desc)[flow.mask] == d)
      ensures Info(ti.flows) == if ok then old(Info(ti.flows))[flow := FlowInfo(flow.key, flow.hash, flow.mask)] else old(Info(ti.flows))
      ensures ok == ((exists k :: k in old(desc) && old(desc)[k] == d) ||
        (newMask.Some? && (old(masks.count) < old(masks.masks.Length) || grow)))
    {
      hide TableInstance.Valid, PowerOfTwo, RefsOk, FlowsOk, MasksOk, MA.Masks.Valid, MA.Masks.Set, Bumped, Info;
      ghost var refs0, desc0 := refs, desc;
      var m := TakeMask(d, newMask, grow);
      ok := m.Some?;
      if ok {
        Enter(flow, m.value, d, refs0, desc0);
        Resize(due, memory, seed);
      }
    }

    /** Place the flow under the mask just taken; the counts are right again. */
    method Enter(flow: SwFlow, m: nat, d: MaskDesc, ghost refs0: map<nat, nat>, ghost desc0: map<nat, MaskDesc>)
      requires cache.Length == MC_HASH_ENTRIES && count == |ti.flows| && flow !in ti.flows && |flow.key| == keyLen
      requires ti.Valid() && masks.Valid() && MasksOk(masks.Set(), refs, desc, keyLen)
      requires RefsOk(refs0, Info(ti.flows), flushed) && FlowsOk(Info(ti.flows), desc0, keyLen, hashKey)
      requires refs == Bumped(refs0, m) && desc == desc0[m := d] && (m in desc0 ==> desc0[m] == d) && Covers(d, keyLen)
      modifies this`count, ti`chains, ti`flows, ti.buckets, flow`hash, flow`mask, flow`next0, flow`next1
      ensures Valid() && ti.flows == old(ti.flows) + {flow} && flow.mask == m
      ensures Info(ti.flows) == old(Info(ti.flows))[flow := FlowInfo(flow.key, flow.hash, flow.mask)]
    {
      hide TableInstance.Valid, PowerOfTwo, RefsOk, FlowsOk, MasksOk, MA.Masks.Valid, MA.Masks.Set, Bumped, Info;
      ghost var info := Info(ti.flows);
      InfoOf(ti.flows, flow);
      Place(flow, m);
      ghost var x := FlowInfo(flow.key, flow.hash, flow.mask);
      RefsAdd(refs0, info, flushed, flow, x);
      FlowsAdd(info, desc0, keyLen, hashKey, m, d, flow, x);
    }

    /** The table's part of ovs_flow_cmd_new: a flow is added only if none
        matches the key it was made from; that key then has this flow and no
        other, and no flow is ever there twice. */
    method CmdNew(flow: SwFlow, unmasked: seq<Word>, d: MaskDesc, newMask: Option<nat>, grow: bool, due: bool, memory: bool, seed: Word)
      returns (found: SwFlow?, ok: bool)
      requires Valid() && NoTwins(Info(ti.flows), desc)
      requires flow !in ti.flows && |flow.key| == |unmasked| == keyLen && Covers(d, keyLen) && RangeOf(flow.key, d) == MaskedKey(unmasked, d)
      requires newMask.Some? ==> newMask.value !in desc
      modifies this`ti, this`count, this`refs, this`desc, masks, masks.masks
      modifies ti`chains, ti`flows, ti.buckets, flow`hash, flow`mask, flow`next0, flow`next1, ti.flows`next0, ti.flows`next1
      ensures Valid() && NoTwins(Info(ti.flows), desc)
      ensures found != null ==> found in old(ti.flows) && FlowMatches(found, unmasked, desc) && ti == old(ti) && ti.flows == old(ti.flows)
      ensures found == null ==> old(forall g :: g in ti.flows ==> !FlowMatches(g, unmasked, desc))
      ensures found == null && !ok ==> ti == old(ti) && ti.flows == old(ti.flows) && refs == old(refs) && desc == old(desc)
      ensures ok == (found == null && ((exists k :: k in old(desc) && old(desc)[k] == d) ||
        (newMask.Some? && (old(masks.count) < old(masks.masks.Length) || grow))))
      ensures found == null && ok ==> ti.flows == old(ti.flows) + {flow} && OnlyMatch(flow, ti.flows, unmasked, desc)
    {
      hide TableInstance.Valid, PowerOfTwo, RefsOk, FlowsOk, MasksOk, MA.Masks.Valid, MA.Masks.Set, Bumped, Info, NoTwins, FlowMatches, InfoMatches, MaskedKey, FirstHit, OnlyMatch, Same;
      ok := false;
      var index;
      found, index := Scan(unmasked);
      if found == null {
        ghost var flows, info, desc0 := ti.flows, Info(ti.flows), desc;
        InfoMisses(flows, unmasked, desc);
        InfoOf(flows, flow);
        ok := Insert(flow, d, newMask, grow, due, memory, seed);
        if ok {
          ghost var x := FlowInfo(flow.key, flow.hash, flow.mask);
          OnlyNew(info, desc0, keyLen, hashKey, flow.mask, d, x, unmasked);
          TwinsAdd(info, desc0, keyLen, hashKey, flow.mask, d, flow, x);
          OnlyFrom(ti.flows, info, unmasked, desc, flow);
        }
      }
    }

    /** flow_mask_remove, after the flow is gone from the instance. */
    method DropMask(m: nat, memory: bool)
      requires masks.Valid() && MasksOk(masks.Set(), refs, desc, keyLen) && m in refs && refs[m] > 0
      modifies this`refs, this`desc, masks, masks.masks
      ensures masks.Valid() && MasksOk(masks.Set(), refs, desc, keyLen) && fresh({masks.masks} - old({masks.masks}))
      ensures refs == Dropped(old(refs), m) && desc == DescDropped(old(refs), old(desc), m)
      ensures var max, shrink := old(masks.masks.Length), old(refs)[m] == 1 && memory && old(masks.count) <= old(masks.masks.Length) / 4;
              masks.masks.Length == if max > 32 && shrink then max / 2 else max
    {
      hide MA.SlotsOk, MA.Live, MasksOk;
      MasksIn(masks.Set(), refs, desc, keyLen);
      MasksSub(masks.Set(), refs, desc, keyLen, m);
      refs := refs[m := refs[m] - 1];
      if refs[m] == 0 {
        MA.SlotsSize(masks.masks[..], masks.count);
        var max := masks.masks.Length;
        if max > MA.MASK_ARRAY_SIZE_MIN * 2 && masks.count <= max / 4 && memory {
          masks.Realloc(max / 2);
        }
        masks.Delete(m);
        refs, desc := refs - {m}, desc - {m};
        assert refs == Dropped(old(refs), m);
      }
    }

    method Unlink(flow: SwFlow)
      requires ti.Valid() && flow in ti.flows && count > 0
      modifies this`count, ti`chains, ti`flows, ti.buckets, ti.flows`next0, ti.flows`next1
      ensures ti.Valid() && ti.flows == old(ti.flows) - {flow} && count == old(count) - 1
      ensures Info(ti.flows) == old(Info(ti.flows)) - {flow}
    {
      hide TableInstance.Valid, PowerOfTwo;
      ti.Delete(flow);
      count := count - 1;
    }

    /** ovs_flow_tbl_remove. */
    method Remove(flow: SwFlow, memory: bool)
      requires Valid() && flow in ti.flows
      modifies this`count, this`refs, this`desc, masks, masks.masks
      modifies ti`chains, ti`flows, ti.buckets, ti.flows`next0, ti.flows`next1
      ensures Valid() && ti.flows == old(ti.flows) - {flow}
      ensures flow.mask in old(refs) && old(refs)[flow.mask] > 0
      ensures refs == Dropped(old(refs), flow.mask) && desc == DescDropped(old(refs), old(desc), flow.mask)
      ensures old(NoTwins(Info(ti.flows), desc)) ==> NoTwins(Info(ti.flows), desc)
    {
      hide TableInstance.Valid, PowerOfTwo, RefsOk, FlowsOk, MasksOk, MA.Masks.Valid, MA.Masks.Set, Dropped, DescDropped, Info, NoTwins;
      ghost var info := Info(ti.flows);
      TwinsDropped(info, refs, desc, flow, flow.mask);
      InfoOf(ti.flows, flow);
      RefsSub(refs, info, flushed, flow);
      FlowsSub(info, refs, desc, keyLen, hashKey, flushed, flow);
      Unlink(flow);
      DropMask(flow.mask, memory);
    }

    /** ovs_flow_tbl_flush: the flows go, their masks stay counted. */
    method Flush(memory: bool, seed: Word) returns (ok: bool)
      requires Valid()
      modifies this`ti, this`count, this`flushed
      ensures Valid() && ok == memory && desc == old(desc) && refs == old(refs)
      ensures ok ==> ti.flows == {} && fresh(ti) && fresh(ti.buckets) && NoTwins(Info(ti.flows), desc)
      ensures !ok ==> ti == old(ti)
    {
      hide TableInstance.Valid, PowerOfTwo, RefsOk, MasksOk, MA.Masks.Valid, MA.Masks.Set;
      ok := memory;
      if ok {
        RefsFlushed(refs, Info(ti.flows), flushed);
        MinBuckets();
        var empty := new TableInstance(TBL_MIN_BUCKETS, false, seed, ti.jhash);
        assert Info(empty.flows) == map[];
        ti, count, flushed := empty, 0, true;
      }
    }
  }

  lemma MasksIn(live: set<nat>, refs: map<nat, nat>, desc: map<nat, MaskDesc>, keyLen: nat)
    requires MasksOk(live, refs, desc, keyLen)
    ensures refs.Keys == desc.Keys == live
  {
  }

  lemma Doubled(ti: TableInstance)
    requires ti.Valid()
    ensures PowerOfTwo(ti.buckets.Length) && PowerOfTwo(2 * ti.buckets.Length)
  {
    hide ChainsOk;
    assert (2 * ti.buckets.Length) / 2 == ti.buckets.Length;
  }

  lemma MinBuckets()
    ensures PowerOfTwo(TBL_MIN_BUCKETS)
  {
    assert PowerOfTwo(4);
    assert PowerOfTwo(16);
    assert PowerOfTwo(64);
    assert PowerOfTwo(256);
  }
}
