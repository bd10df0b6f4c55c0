/** Tags: two bits out of 32, combined by union and counted per bit so that
    they can be taken out again.  A tag is modelled as its set of bits. */
module Tags {

  const N_TAG_BITS: nat := 32

  type Tag = t: set<nat> | forall b :: b in t ==> b < N_TAG_BITS witness {}

  function BitsBelow(n: nat): (t: Tag)
    requires n <= N_TAG_BITS
    ensures forall b :: b in t <==> 0 <= b < n
  {
    if n == 0 then {} else BitsBelow(n - 1) + {n - 1}
  }

  /** TAG_ALL intersects every tag. */
  function TagAll(): (t: Tag) {
    BitsBelow(N_TAG_BITS)
  }

  /** TAG_ARBITRARY: the value 3. */
  function TagArbitrary(): (t: Tag) {
    {0, 1}
  }

  function TagCreate(seed: nat): (t: Tag)
    ensures |t| == 2
  {
    var x := seed % N_TAG_BITS;
    var y := (seed / 32) % (N_TAG_BITS - 1);
    var z := if y >= x then y + 1 else y;
    {x, z}
  }

  /** Every tag of two bits is made from some seed. */
  lemma TagOnto(x: nat, y: nat)
    requires x < y < N_TAG_BITS
    ensures TagCreate(x + 32 * (y - 1)) == {x, y}
  {
    var seed := x + 32 * (y - 1);
    assert seed % 32 == x && seed / 32 == y - 1;
  }

  /** x & (x - 1) is non-zero: at least two common bits. */
  predicate Intersects(a: Tag, b: Tag) {
    |a * b| >= 2
  }

  /** 'tags' with the number of added tags that set each bit. */
  datatype Tracker = Tracker(tags: Tag, counts: seq<nat>)

  predicate TrackerShape(t: Tracker) {
    && |t.counts| == N_TAG_BITS
    && forall b :: 0 <= b < N_TAG_BITS ==> (b in t.tags <==> t.counts[b] > 0)
  }

  function TrackerInit(): (t: Tracker)
    ensures TrackerShape(t) && t.tags == {} && forall b :: 0 <= b < N_TAG_BITS ==> t.counts[b] == 0
  {
    Tracker({}, seq(N_TAG_BITS, i => 0))
  }

  function AddTag(t: Tracker, add: Tag): (r: Tracker)
    requires |t.counts| == N_TAG_BITS
    ensures TrackerShape(t) ==> TrackerShape(r)
  {
    Tracker(t.tags + add, seq(N_TAG_BITS, b requires 0 <= b < N_TAG_BITS => t.counts[b] + if b in add then 1 else 0))
  }

  function SubTag(t: Tracker, sub: Tag): (r: Tracker)
    requires TrackerShape(t) && sub <= t.tags
    ensures TrackerShape(r)
  {
    Tracker(set b | b in t.tags && (b in sub ==> t.counts[b] > 1),
            seq(N_TAG_BITS, b requires 0 <= b < N_TAG_BITS => t.counts[b] - if b in sub then 1 else 0))
  }

  /** tag_tracker_add: one more tag for each bit of 'add'. */
  method TrackerAdd(t: Tracker, add: Tag) returns (r: Tracker)
    requires TrackerShape(t)
    ensures r == AddTag(t, add)
  {
    var counts, todo := t.counts, add;
    while todo != {}
      invariant todo <= add && |counts| == N_TAG_BITS
      invariant forall b :: 0 <= b < N_TAG_BITS ==> counts[b] == t.counts[b] + if b in add && b !in todo then 1 else 0
      decreases todo
    {
      var b :| b in todo;
      counts := counts[b := counts[b] + 1];
      todo := todo - {b};
    }
    r := Tracker(t.tags + add, counts);
    assert counts == AddTag(t, add).counts;
  }

  /** tag_tracker_subtract: drop a bit when no remaining tag has it. */
  method TrackerSubtract(t: Tracker, sub: Tag) returns (r: Tracker)
    requires TrackerShape(t) && sub <= t.tags
    ensures r == SubTag(t, sub)
  {
    r := t;
    var todo := sub;
    while todo != {}
      invariant todo <= sub && TrackerShape(r) && todo <= r.tags
      invariant forall b :: 0 <= b < N_TAG_BITS ==> r.counts[b] == t.counts[b] - if b in sub && b !in todo then 1 else 0
      decreases todo
    {
      var b :| b in todo;
      var c := r.counts[b] - 1;
      r := Tracker(if c == 0 then r.tags - {b} else r.tags, r.counts[b := c]);
      todo := todo - {b};
    }
    assert r.counts == SubTag(t, sub).counts;
    TrackerUnique(r, SubTag(t, sub));
  }

  /** The trackers' result is determined by its counts. */
  lemma TrackerUnique(a: Tracker, b: Tracker)
    requires TrackerShape(a) && TrackerShape(b) && a.counts == b.counts
    ensures a == b
  {
    assert forall x :: x in a.tags <==> x in b.tags;
  }

  /** A tag that was added still intersects the combination. */
  lemma SubsetIntersects(tags: Tag, t: Tag)
    requires t <= tags && |t| >= 2
    ensures Intersects(tags, t)
  {
    assert tags * t == t;
  }

  lemma AllIntersects(tags: Tag)
    requires |tags| >= 2
    ensures Intersects(tags, TagAll())
  {
    assert tags * TagAll() == tags;
  }
}
