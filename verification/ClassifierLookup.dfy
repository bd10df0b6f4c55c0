/** classifier_lookup: the highest-priority matching rule, and a mask of the
    bits that decided it. */
module ClassifierLookup {
  import opened Options
  import opened Words
  import opened Flows
  import opened Tags
  import opened Subtables
  import opened SubtableLookup
  import opened Classifier
  import PC = PriorityCache
  import PT = PrefixTrie

  // ------------------------------------------------ the simple search

  /** A best match in a finite set of rules, if there is a match. */
  lemma BestExists(S: set<Rule>, f: Flow) returns (res: Option<Rule>)
    ensures Best(S, f, res)
    decreases |S|
  {
    hide RuleMatches;
    if S == {} {
      res := None;
    } else {
      var x :| x in S;
      var T := S - {x};
      res := BestExists(T, f);
      if RuleMatches(x, f) && (res.None? || x.priority > res.value.priority) {
        res := Some(x);
      }
    }
  }

  lemma SomeBest(S: set<Rule>, f: Flow)
    ensures exists res :: Best(S, f, res)
  {
    var res := BestExists(S, f);
  }

  ghost function BestIn(S: set<Rule>, f: Flow): (res: Option<Rule>)
    ensures Best(S, f, res)
  {
    SomeBest(S, f);
    var res :| Best(S, f, res);
    res
  }

  predicate Better(r: Option<Rule>, best: Option<Rule>) {
    r.Some? && (best.None? || r.value.priority > best.value.priority)
  }

  /** The first best match over the first 'n' subtables of the order: the
      search without any of the shortcuts. */
  ghost function Scan(order: seq<PC.Entry>, R: set<Rule>, f: Flow, n: nat): Option<Rule>
    requires n <= |order|
  {
    if n == 0 then None
    else
      var best := Scan(order, R, f, n - 1);
      var r := BestIn(RulesWith(R, order[n - 1].mask), f);
      if Better(r, best) then r else best
  }

  /** The rules of the first 'n' subtables. */
  ghost function RulesUpTo(order: seq<PC.Entry>, R: set<Rule>, n: nat): set<Rule>
    requires n <= |order|
  {
    set r, i | r in R && 0 <= i < n && order[i].mask == r.mask :: r
  }

  lemma {:induction false} ScanBest(order: seq<PC.Entry>, R: set<Rule>, f: Flow, n: nat)
    requires n <= |order|
    ensures Best(RulesUpTo(order, R, n), f, Scan(order, R, f, n))
  {
    hide RuleMatches, BestIn;
    if n > 0 {
      ScanBest(order, R, f, n - 1);
      assert RulesUpTo(order, R, n) == RulesUpTo(order, R, n - 1) + RulesWith(R, order[n - 1].mask);
    }
  }

  /** The simple search finds the best match of the whole classifier. */
  lemma ScanAll(env: Env, c: Cls, R: set<Rule>, f: Flow)
    requires Inv(env, c, R)
    ensures Best(R, f, Scan(c.order, R, f, |c.order|))
  {
    hide Best, SubtableOk, PartitionsOk, TrieOk, Scan;
    var n := |c.order|;
    ScanBest(c.order, R, f, n);
    forall r | r in R ensures r in RulesUpTo(c.order, R, n) {
      assert r.mask in OrderMap(c.subtables);
      var i :| 0 <= i < n && c.order[i].mask == r.mask;
    }
    assert RulesUpTo(c.order, R, n) == R;
  }

  /** So it does in every state of every run of insertions, removals and
      changes of the prefix fields. */
  lemma RunFindsBest(env: Env, ops: seq<Op>, states: seq<(Cls, set<Rule>)>, segments: seq<nat>, n: nat, f: Flow)
    requires Run(env, ops, states, segments) && n < |states|
    ensures var (c, R) := states[n]; Inv(env, c, R) && Best(R, f, Scan(c.order, R, f, |c.order|))
  {
    hide Run, Inv, Best, Scan;
    RunInv(env, ops, states, segments, n);
    ScanAll(env, states[n].0, states[n].1, f);
  }

  /** Subtables whose top priority is not above the best so far change
      nothing. */
  lemma {:induction false} ScanTail(env: Env, c: Cls, R: set<Rule>, f: Flow, i: nat, n: nat)
    requires Inv(env, c, R) && i <= n <= |c.order|
    requires i < n ==> Scan(c.order, R, f, i).Some? && c.order[i].maxPriority <= Scan(c.order, R, f, i).value.priority
    ensures Scan(c.order, R, f, n) == Scan(c.order, R, f, i)
    decreases n
  {
    hide BestIn, PartitionsOk, TrieOk, SegmentsOk, Inv;
    if i < n {
      InvOrder(env, c, R);
      ScanTail(env, c, R, f, i, n - 1);
      var m := c.order[n - 1].mask;
      assert c.order[n - 1].maxPriority <= c.order[i].maxPriority;
      EntryBound(env, c, R, n - 1);
      assert !Better(BestIn(RulesWith(R, m), f), Scan(c.order, R, f, i));
    }
  }

  lemma InvOrder(env: Env, c: Cls, R: set<Rule>)
    requires Inv(env, c, R)
    ensures PC.Sorted(c.order)
  {
  }

  /** A cached priority bounds the priorities in its subtable. */
  lemma EntryBound(env: Env, c: Cls, R: set<Rule>, i: nat)
    requires Inv(env, c, R) && i < |c.order|
    ensures forall r :: r in RulesWith(R, c.order[i].mask) ==> r.priority <= c.order[i].maxPriority
  {
    hide PartitionsOk, TrieOk, SegmentsOk, RulesWith, GroupsOk, IndicesOk, PortsOk, PrefixLen, TagOf;
    var m := c.order[i].mask;
    assert m in OrderMap(c.subtables);
    assert SubtableOk(env, c.tries, m, c.subtables[m], RulesWith(R, m));
  }

  lemma EntrySubtable(env: Env, c: Cls, R: set<Rule>, i: nat)
    requires Inv(env, c, R) && i < |c.order|
    ensures var m := c.order[i].mask;
            && m in c.subtables && SubtableOk(env, c.tries, m, c.subtables[m], RulesWith(R, m))
            && c.order[i].tag == TagOf(env, m)
  {
    hide PartitionsOk, TrieOk, SegmentsOk, RulesWith, SubOk, PrefixLen, TagOf;
    var m := c.order[i].mask;
    assert m in OrderMap(c.subtables);
  }

  // ------------------------------------------------ metadata partitions

  /** The tags a lookup searches for. */
  function SearchTags(c: Cls, flow: Flow): Tag {
    if Metadata(flow) in c.partitions then c.partitions[Metadata(flow)].tags else TagArbitrary()
  }

  lemma MatchSameMetadata(r: Rule, f: Flow)
    requires RuleMatches(r, f) && ExactMetadata(r.mask)
    ensures Metadata(r.flow) == Metadata(f)
  {
    forall i | METADATA_OFS <= i < METADATA_OFS + 2 ensures r.flow[i] == f[i] {
      assert SameUnder(r.flow[i], f[i], r.mask[i]);
    }
  }

  /** A subtable whose tag does not intersect the search tags has no rule for
      any flow with this metadata. */
  lemma TagSkip(env: Env, c: Cls, R: set<Rule>, m: Mask, f: Flow)
    requires PartitionsOk(env, c.partitions, R) && !Intersects(SearchTags(c, f), TagOf(env, m))
    ensures NoMatch(RulesWith(R, m), f)
  {
    hide RuleMatches, Metadata, WithMetadata, PartitionOk;
    forall r | r in RulesWith(R, m) ensures !RuleMatches(r, f) {
      if RuleMatches(r, f) {
        if ExactMetadata(m) {
          MatchSameMetadata(r, f);
          PartitionHasTag(env, c.partitions, R, r);
          SubsetIntersects(SearchTags(c, f), TagOf(env, m));
        } else {
          SearchTagsTwo(env, c, R, f);
          AllIntersects(SearchTags(c, f));
        }
      }
    }
  }

  /** Where no rule names this metadata exactly, subtables of rules that name
      some are passed by, but for those that happen to have the arbitrary tag;
      those that do not are all searched. */
  lemma OthersPassed(env: Env, c: Cls, R: set<Rule>, m: Mask, f: Flow)
    requires PartitionsOk(env, c.partitions, R) && (forall r :: r in R ==> !HasMetadata(r, Metadata(f)))
    ensures ExactMetadata(m) ==> (Intersects(SearchTags(c, f), TagOf(env, m)) <==> TagCreate(env.maskHash(m)) == {0, 1})
    ensures !ExactMetadata(m) ==> Intersects(SearchTags(c, f), TagOf(env, m))
  {
    hide PartitionOk, Metadata, HasMetadata;
    assert WithMetadata(R, Metadata(f)) == {};
    var t := TagCreate(env.maskHash(m));
    TwoOfTwo(t);
    AllIntersects(TagArbitrary());
  }

  lemma TwoOfTwo(t: Tag)
    requires |t| == 2
    ensures Intersects({0, 1}, t) <==> t == {0, 1}
  {
    var x := {0, 1} * t;
    SubsetSize(x, t);
    if |x| >= 2 {
      assert |t - x| == |t| - |x|;
      assert t == x + (t - x);
      assert |{0, 1} - x| == 2 - |x|;
      assert {0, 1} == x + ({0, 1} - x);
    }
  }

  /** The search tags always have at least two bits, so that subtables
      without exact metadata are always searched. */
  lemma SearchTagsTwo(env: Env, c: Cls, R: set<Rule>, f: Flow)
    requires PartitionsOk(env, c.partitions, R)
    ensures |SearchTags(c, f)| >= 2
  {
    hide PartitionOk;
    var v := Metadata(f);
    if v in c.partitions {
      var r :| r in WithMetadata(R, v);
      PartitionHasTag(env, c.partitions, R, r);
      SubsetSize(TagOf(env, r.mask), c.partitions[v].tags);
    }
  }

  lemma SubsetSize(a: set<nat>, b: set<nat>)
    requires a <= b
    ensures |a| <= |b|
  {
    assert b == a + (b - a);
  }

  // ------------------------------------------------ tries

  ghost predicate CtxsOk(env: Env, tries: seq<ClsTrie>, ctxs: seq<TrieCtx>, flow: Flow) {
    |ctxs| == |tries| && forall j :: 0 <= j < |tries| ==> TrieShape(tries[j]) && CtxOk(env, tries[j], flow, ctxs[j])
  }

  lemma TrieHoldsFrom(t: ClsTrie, R: set<Rule>, m: Mask)
    requires TrieOk(t, R)
    ensures TrieHolds(t, PrefixLen(m, t.field), m, RulesWith(R, m))
  {
    hide PT.Ok, PT.Count, Bits, PrefixLen;
    var n := PrefixLen(m, t.field);
    if n > 0 {
      PrefixLenShape(m, t.field);
      forall r | r in RulesWith(R, m) ensures PT.Count(t.root, Bits(FieldWords(r.flow, t.field))[..n]) > 0 {
        assert r in WithPrefix(R, t.field, RulePrefix(r, t.field));
      }
    }
  }

  lemma TriesHold(env: Env, c: Cls, R: set<Rule>, m: Mask, ctxs: seq<TrieCtx>, flow: Flow)
    requires Inv(env, c, R) && m in c.subtables && CtxsOk(env, c.tries, ctxs, flow)
    ensures TriesOk(env, c.tries, ctxs, flow, c.subtables[m], RulesWith(R, m))
  {
    hide PC.OrderOk, PartitionsOk, TrieOk, SegmentsOk, RulesWith, SubOk, PrefixLen, TagOf, TrieShape, CtxOk, TrieHolds;
    assert SubtableOk(env, c.tries, m, c.subtables[m], RulesWith(R, m));
    forall j | 0 <= j < |c.tries|
      ensures TrieShape(c.tries[j]) && TrieHolds(c.tries[j], c.subtables[m].triePlen[j], m, RulesWith(R, m))
    {
      TrieHoldsFrom(c.tries[j], R, m);
    }
  }

  // ------------------------------------------------ un-wildcarding

  /** No rule with r's mask matches the flow, and r itself does not because of
      words after the ports alone; the mask has bits there and in the ports. */
  ghost predicate HoleRule(c: Cls, R: set<Rule>, f: Flow, r: Rule) {
    && r in R && r.mask in c.subtables && c.subtables[r.mask].portsMaskLen > 0
    && NoMatch(RulesWith(R, r.mask), f) && Agree(r.flow, f, r.mask, 0, TP_PORTS_OFS32 + 1)
  }

  ghost predicate NoHoles(c: Cls, R: set<Rule>, f: Flow) {
    forall r :: r in R ==> !HoleRule(c, R, f, r)
  }

  /** In particular when no mask with ports bits has bits after the ports. */
  lemma PortsLastNoHoles(env: Env, c: Cls, R: set<Rule>, f: Flow)
    requires Inv(env, c, R)
    requires forall m, i :: m in c.subtables && m[TP_PORTS_OFS32] != Zero() && TP_PORTS_OFS32 < i < FLOW_U32S ==> m[i] == Zero()
    ensures NoHoles(c, R, f)
  {
    hide PC.OrderOk, PartitionsOk, TrieOk, SegmentsOk, IndicesOk, MaxOk, PortsOk, PrefixLen, TagOf, GroupsOk, Agree, RuleMatches;
    forall r | r in R && HoleRule(c, R, f, r) ensures false {
      var m := r.mask;
      assert SubtableOk(env, c.tries, m, c.subtables[m], RulesWith(R, m));
      assert m[TP_PORTS_OFS32] == Zero() ==> PortsMaskLen(m) == 0;
      NoHoleWithoutLaterWords(env, c.subtables[m], RulesWith(R, m), f);
    }
  }

  /** Every rule of that kind has less priority than the result. */
  ghost predicate Harmless(c: Cls, R: set<Rule>, f: Flow, best: Option<Rule>) {
    forall r :: HoleRule(c, R, f, r) ==> best.Some? && r.priority < best.value.priority
  }

  /** Some rule of that kind has more, or there is no result. */
  ghost predicate Harmful(c: Cls, R: set<Rule>, f: Flow, best: Option<Rule>) {
    exists r :: HoleRule(c, R, f, r) && (best.None? || r.priority > best.value.priority)
  }

  /** Masks with bits after the ports have bits in the ports, and nothing is
      staged or tracked there. */
  ghost predicate LateBehindPorts(c: Cls) {
    && (forall m :: m in c.subtables ==> NothingLate(m) || c.subtables[m].portsMaskLen > 0)
    && (forall m, i :: m in c.subtables && 0 <= i < |c.subtables[m].indexOfs| ==> c.subtables[m].indexOfs[i] <= TP_PORTS_OFS32 + 1)
    && (forall j :: 0 <= j < |c.tries| ==> c.tries[j].field.ofs + c.tries[j].field.words <= TP_PORTS_OFS32 + 1)
  }

  /** A lookup of this flow leaves the words after the ports alone. */
  ghost predicate StaysEarly(c: Cls, R: set<Rule>, f: Flow, wc: Mask) {
    NothingLate(wc) && LateBehindPorts(c) && forall r :: r in R && RuleMatches(r, f) ==> NothingLate(r.mask)
  }

  /** Every flow with the same metadata that agrees on the mask's bits gets
      the same result from the first 'n' subtables. */
  ghost predicate Decided(c: Cls, R: set<Rule>, flow: Flow, wc: Mask, n: nat, res: Option<Rule>)
    requires n <= |c.order|
  {
    forall f: Flow :: Metadata(f) == Metadata(flow) && Agree(flow, f, wc, 0, FLOW_U32S)
                      ==> Scan(c.order, R, f, n) == res
  }

  predicate Low(x: Option<Rule>, goal: Option<Rule>) {
    goal.Some? && (x.None? || x.value.priority < goal.value.priority)
  }

  /** As before, or else both results are short of the final one. */
  ghost predicate DecidedOrLow(c: Cls, R: set<Rule>, flow: Flow, wc: Mask, n: nat, res: Option<Rule>, goal: Option<Rule>)
    requires n <= |c.order|
  {
    forall f: Flow :: Metadata(f) == Metadata(flow) && Agree(flow, f, wc, 0, FLOW_U32S)
                      ==> Scan(c.order, R, f, n) == res || (Low(Scan(c.order, R, f, n), goal) && Low(res, goal))
  }

  /** The result only ever improves. */
  lemma {:induction false} ScanClimbs(order: seq<PC.Entry>, R: set<Rule>, f: Flow, i: nat, n: nat)
    requires i <= n <= |order|
    ensures Scan(order, R, f, i) == Scan(order, R, f, n) || Low(Scan(order, R, f, i), Scan(order, R, f, n))
    decreases n
  {
    hide BestIn;
    if i < n {
      ScanClimbs(order, R, f, i, n - 1);
    }
  }

  /** A rule behind the ports that would win makes every mask that leaves the
      later words out undecided. */
  lemma HarmfulUndecided(env: Env, c: Cls, R: set<Rule>, flow: Flow, wc: Mask, best: Option<Rule>)
    requires Inv(env, c, R) && NothingLate(wc) && Harmful(c, R, flow, best)
    ensures !Decided(c, R, flow, wc, |c.order|, best)
  {
    hide Inv, Scan;
    var r :| HoleRule(c, R, flow, r) && (best.None? || r.priority > best.value.priority);
    var f: Flow := flow[..TP_PORTS_OFS32 + 1] + r.flow[TP_PORTS_OFS32 + 1..];
    Spliced(r, flow, f, wc);
    ScanAll(env, c, R, f);
  }

  /** The flow looked up, with the rule's words after the ports. */
  lemma Spliced(r: Rule, flow: Flow, f: Flow, wc: Mask)
    requires NothingLate(wc) && f == flow[..TP_PORTS_OFS32 + 1] + r.flow[TP_PORTS_OFS32 + 1..]
    requires Agree(r.flow, flow, r.mask, 0, TP_PORTS_OFS32 + 1)
    ensures RuleMatches(r, f) && Agree(flow, f, wc, 0, FLOW_U32S) && Metadata(f) == Metadata(flow)
  {
    forall i | 0 <= i < FLOW_U32S ensures SameUnder(r.flow[i], f[i], r.mask[i]) && SameUnder(flow[i], f[i], wc[i]) {
      if i <= TP_PORTS_OFS32 { assert SameUnder(r.flow[i], flow[i], r.mask[i]); }
    }
  }

  lemma DecidedStart(c: Cls, R: set<Rule>, flow: Flow, wc: Mask, goal: Option<Rule>)
    ensures DecidedOrLow(c, R, flow, wc, 0, None, goal)
  {
  }

  /** A skipped subtable. */
  lemma DecidedSkip(env: Env, c: Cls, R: set<Rule>, flow: Flow, wc: Mask, i: nat, best: Option<Rule>, goal: Option<Rule>)
    requires PartitionsOk(env, c.partitions, R) && i < |c.order| && c.order[i].tag == TagOf(env, c.order[i].mask)
    requires !Intersects(SearchTags(c, flow), c.order[i].tag) && best == Scan(c.order, R, flow, i)
    ensures best == Scan(c.order, R, flow, i + 1)
    ensures DecidedOrLow(c, R, flow, wc, i, best, goal) ==> DecidedOrLow(c, R, flow, wc, i + 1, best, goal)
  {
    hide PartitionsOk, Metadata, Agree, TagOf, Intersects, NoMatch, Low;
    forall f: Flow | Metadata(f) == Metadata(flow) ensures Scan(c.order, R, f, i + 1) == Scan(c.order, R, f, i) {
      TagSkip(env, c, R, c.order[i].mask, f);
      NoBest(RulesWith(R, c.order[i].mask), f);
    }
  }

  lemma NoBest(S: set<Rule>, f: Flow)
    requires NoMatch(S, f)
    ensures BestIn(S, f) == None
  {
    hide RuleMatches;
    var r := BestIn(S, f);
    assert Best(S, f, r);
  }

  /** What the mask of a searched subtable is good for. */
  ghost predicate StepSound(c: Cls, R: set<Rule>, m: Mask, flow: Flow, wc: Mask, r: Option<Rule>) {
    forall f: Flow :: Agree(flow, f, wc, 0, FLOW_U32S) ==>
      Best(RulesWith(R, m), f, r) || (r.None? && forall x :: x in RulesWith(R, m) && RuleMatches(x, f) ==> HoleRule(c, R, flow, x))
  }

  lemma StepSoundFrom(c: Cls, R: set<Rule>, m: Mask, flow: Flow, wc: Mask, r: Option<Rule>)
    requires m in c.subtables && c.subtables[m].mask == m && Best(RulesWith(R, m), flow, r)
    requires SoundButHoles(c.subtables[m], RulesWith(R, m), flow, wc, r)
    ensures StepSound(c, R, m, flow, wc, r)
  {
    hide Agree, RuleMatches;
  }

  /** A searched subtable. */
  lemma DecidedStep(env: Env, c: Cls, R: set<Rule>, flow: Flow, wc: Mask, wc': Mask, i: nat, best: Option<Rule>, r: Option<Rule>, goal: Option<Rule>)
    requires Inv(env, c, R) && i < |c.order| && best == Scan(c.order, R, flow, i) && goal == Scan(c.order, R, flow, |c.order|)
    requires Best(RulesWith(R, c.order[i].mask), flow, r) && Covers(wc', wc, 0, FLOW_U32S)
    ensures (if Better(r, best) then r else best) == Scan(c.order, R, flow, i + 1)
    ensures Harmless(c, R, flow, goal) && DecidedOrLow(c, R, flow, wc, i, best, goal) && StepSound(c, R, c.order[i].mask, flow, wc', r)
        ==> DecidedOrLow(c, R, flow, wc', i + 1, if Better(r, best) then r else best, goal)
  {
    hide Inv, Metadata, Agree, Covers, Best, BestIn, RulesWith, Scan, StepSound, Harmless;
    var m, next := c.order[i].mask, if Better(r, best) then r else best;
    BestInIs(env, c, R, i, flow, r);
    ScanNext(c.order, R, flow, i);
    ScanClimbs(c.order, R, flow, i, |c.order|);
    if Harmless(c, R, flow, goal) && DecidedOrLow(c, R, flow, wc, i, best, goal) && StepSound(c, R, m, flow, wc', r) {
      forall f: Flow | Metadata(f) == Metadata(flow) && Agree(flow, f, wc', 0, FLOW_U32S)
        ensures Scan(c.order, R, f, i + 1) == next || (Low(Scan(c.order, R, f, i + 1), goal) && Low(next, goal))
      {
        AgreeCovered(flow, f, wc', wc, 0, FLOW_U32S);
        ScanNext(c.order, R, f, i);
        SubtableOrLow(env, c, R, flow, f, wc', i, r, goal);
      }
    }
  }

  lemma ScanNext(order: seq<PC.Entry>, R: set<Rule>, f: Flow, i: nat)
    requires i < |order|
    ensures var r, best := BestIn(RulesWith(R, order[i].mask), f), Scan(order, R, f, i);
            Scan(order, R, f, i + 1) == if Better(r, best) then r else best
  {
    hide BestIn;
  }

  /** Another flow's result from the subtable is the same, or is a rule that
      comes to nothing. */
  lemma SubtableOrLow(env: Env, c: Cls, R: set<Rule>, flow: Flow, f: Flow, wc: Mask, i: nat, r: Option<Rule>, goal: Option<Rule>)
    requires Inv(env, c, R) && i < |c.order| && Agree(flow, f, wc, 0, FLOW_U32S)
    requires Harmless(c, R, flow, goal) && StepSound(c, R, c.order[i].mask, flow, wc, r)
    ensures var r' := BestIn(RulesWith(R, c.order[i].mask), f); r' == r || (r.None? && Low(r', goal))
  {
    hide Inv, Agree, BestIn, RulesWith, HoleRule, RuleMatches;
    var S := RulesWith(R, c.order[i].mask);
    if Best(S, f, r) {
      BestInIs(env, c, R, i, f, r);
    } else {
      var r' := BestIn(S, f);
      assert Best(S, f, r');
    }
  }

  lemma BestInIs(env: Env, c: Cls, R: set<Rule>, i: nat, f: Flow, r: Option<Rule>)
    requires Inv(env, c, R) && i < |c.order| && Best(RulesWith(R, c.order[i].mask), f, r)
    ensures BestIn(RulesWith(R, c.order[i].mask), f) == r
  {
    hide Inv, Best, SubOk, PrefixLen, TagOf, GroupsOk, RulesWith;
    EntrySubtable(env, c, R, i);
    var m := c.order[i].mask;
    SubGroups(env, c.subtables[m], RulesWith(R, m));
    BestUnique(env, c.subtables[m], RulesWith(R, m), f, BestIn(RulesWith(R, m), f), r);
  }

  /** Leaving the loop early. */
  lemma DecidedTail(env: Env, c: Cls, R: set<Rule>, flow: Flow, wc: Mask, i: nat, best: Option<Rule>, goal: Option<Rule>)
    requires Inv(env, c, R) && i < |c.order| && best == Scan(c.order, R, flow, i) && goal == Scan(c.order, R, flow, |c.order|)
    requires best.Some? && c.order[i].maxPriority <= best.value.priority
    ensures best == goal
    ensures DecidedOrLow(c, R, flow, wc, i, best, goal) ==> DecidedOrLow(c, R, flow, wc, |c.order|, best, goal)
  {
    hide Inv, Metadata, Agree, Scan;
    ScanTail(env, c, R, flow, i, |c.order|);
    if DecidedOrLow(c, R, flow, wc, i, best, goal) {
      forall f: Flow | Metadata(f) == Metadata(flow) && Agree(flow, f, wc, 0, FLOW_U32S)
        ensures Scan(c.order, R, f, |c.order|) == best
      {
        ScanTail(env, c, R, f, i, |c.order|);
      }
    }
  }

  lemma DecidedEnd(c: Cls, R: set<Rule>, flow: Flow, wc: Mask, goal: Option<Rule>)
    requires DecidedOrLow(c, R, flow, wc, |c.order|, goal, goal)
    ensures Decided(c, R, flow, wc, |c.order|, goal)
  {
    hide Agree, Scan, Metadata;
  }

  /** Search one subtable, with or without a mask to extend. */
  method SearchSubtable(env: Env, c: Cls, i: nat, flow: Flow, ctxs: seq<TrieCtx>, useWc: bool, wc: Mask, ghost R: set<Rule>)
    returns (res: Option<Rule>, ctxs': seq<TrieCtx>, wc': Mask)
    requires Inv(env, c, R) && i < |c.order| && CtxsOk(env, c.tries, ctxs, flow)
    ensures CtxsOk(env, c.tries, ctxs', flow)
    ensures Best(RulesWith(R, c.order[i].mask), flow, res)
    ensures Covers(wc', wc, 0, FLOW_U32S) && (!useWc ==> wc' == wc)
    ensures useWc ==> StepSound(c, R, c.order[i].mask, flow, wc', res)
    ensures useWc && StaysEarly(c, R, flow, wc) ==> StaysEarly(c, R, flow, wc')
    ensures useWc ==> StepFrugal(env, c, R, i, flow, wc, wc', res)
  {
    hide Inv, RulesWith, PortsHole, Best, Sound, SoundButHoles, Frugal, Within, StepSound, StaysEarly, Confined, NothingLate, Covers, SubOk, GroupsOk, TagOf, PrefixLen, TrieShape, CtxOk, TrieHolds, HashUpTo, FoldHash, MaskWords;
    EntrySubtable(env, c, R, i);
    var st := c.subtables[c.order[i].mask];
    ghost var S := RulesWith(R, c.order[i].mask);
    if useWc {
      TriesHold(env, c, R, c.order[i].mask, ctxs, flow);
      res, ctxs', wc' := FindMatchWc(env, c.tries, ctxs, st, flow, wc, S);
      StepSoundFrom(c, R, st.mask, flow, wc', res);
      EarlyStep(c, R, st.mask, flow, wc, wc', res);
    } else {
      SubGroups(env, st, S);
      var hash, basis := HashRange(env, flow, st.mask, 0, FLOW_U32S, Zero());
      NothingYet(env, flow, st.mask);
      StagedHash(env, flow, st.mask, 0, FLOW_U32S, Zero(), hash, basis);
      res := FindMatch(env, st, flow, hash, S);
      ctxs', wc' := ctxs, wc;
      CoversSelf(wc);
    }
  }

  /** The mask of one subtable's lookup takes no bits it does not need. */
  ghost predicate StepFrugal(env: Env, c: Cls, R: set<Rule>, i: nat, flow: Flow, wc: Mask, wc': Mask, res: Option<Rule>)
    requires i < |c.order|
  {
    var m := c.order[i].mask;
    && m in c.subtables && c.subtables[m].mask == m && |c.tries| == |c.subtables[m].triePlen| && (forall j :: 0 <= j < |c.tries| ==> TrieShape(c.tries[j]))
    && Frugal(env, c.tries, c.subtables[m], RulesWith(R, m), flow, wc, wc', res)
  }

  /** The search gets to a subtable: its tag is among those searched for, and
      what was found before is not as good as what it may hold. */
  ghost predicate Searched(c: Cls, R: set<Rule>, flow: Flow, k: nat) {
    && k < |c.order| && Intersects(SearchTags(c, flow), c.order[k].tag)
    && var best := Scan(c.order, R, flow, k); best.None? || best.value.priority < c.order[k].maxPriority
  }

  /** Bit j of word i is in the mask of the k-th subtable and, if that has no
      match, comes before the point where this was clear, or was needed by a
      trie; in the ports it was needed by the ports trie. */
  ghost predicate Wanted(env: Env, c: Cls, R: set<Rule>, flow: Flow, wc: Mask, k: nat, i: nat, j: nat)
    requires k < |c.order| && i < FLOW_U32S && j < 32
  {
    var m := c.order[k].mask;
    && m in c.subtables && |c.tries| == |c.subtables[m].triePlen| && (forall t :: 0 <= t < |c.tries| ==> TrieShape(c.tries[t]))
    && m[i][j]
    && (NoMatch(RulesWith(R, m), flow) ==>
          && (forall b :: ClearAt(env, c.tries, c.subtables[m], RulesWith(R, m), flow, wc, b) ==> i < b || TrieBit(env, c.tries, flow, i, j))
          && (i == TP_PORTS_OFS32 && c.subtables[m].portsMaskLen > 0 && PortsApart(c.subtables[m], c.tries) ==>
                j < PT.Find(c.subtables[m].portsTrie, Bits(PortsValue(flow, c.subtables[m].mask)), true).checkBits))
  }

  /** Every bit of the new mask was there before or is wanted by one of the
      first n subtables that was searched. */
  ghost predicate FromSearched(env: Env, c: Cls, R: set<Rule>, flow: Flow, wc: Mask, wc': Mask, n: nat) {
    forall i, j :: 0 <= i < FLOW_U32S && 0 <= j < 32 && wc'[i][j] && !wc[i][j] ==> WantedBySome(env, c, R, flow, wc, n, i, j)
  }

  ghost predicate WantedBySome(env: Env, c: Cls, R: set<Rule>, flow: Flow, wc: Mask, n: nat, i: nat, j: nat)
    requires i < FLOW_U32S && j < 32
  {
    exists k :: 0 <= k < n && Searched(c, R, flow, k) && Wanted(env, c, R, flow, wc, k, i, j)
  }

  lemma FromSearchedMore(env: Env, c: Cls, R: set<Rule>, flow: Flow, wc: Mask, wc': Mask, n: nat, m: nat)
    requires n <= m && FromSearched(env, c, R, flow, wc, wc', n)
    ensures FromSearched(env, c, R, flow, wc, wc', m)
  {
    hide Searched, Wanted, WantedBySome;
    forall i, j | 0 <= i < FLOW_U32S && 0 <= j < 32 && wc'[i][j] && !wc[i][j] ensures WantedBySome(env, c, R, flow, wc, m, i, j) {
      SomeMore(env, c, R, flow, wc, n, m, i, j);
    }
  }

  lemma SomeMore(env: Env, c: Cls, R: set<Rule>, flow: Flow, wc: Mask, n: nat, m: nat, i: nat, j: nat)
    requires n <= m && i < FLOW_U32S && j < 32
    ensures WantedBySome(env, c, R, flow, wc, n, i, j) ==> WantedBySome(env, c, R, flow, wc, m, i, j)
  {
    hide Wanted, Scan, Intersects, SearchTags;
  }

  /** A searched subtable adds only what it wants. */
  lemma FromSearchedNext(env: Env, c: Cls, R: set<Rule>, flow: Flow, wc: Mask, w: Mask, wc': Mask, n: nat, res: Option<Rule>)
    requires n < |c.order| && FromSearched(env, c, R, flow, wc, w, n) && Covers(w, wc, 0, FLOW_U32S)
    requires Searched(c, R, flow, n) && StepFrugal(env, c, R, n, flow, w, wc', res) && Best(RulesWith(R, c.order[n].mask), flow, res)
    ensures FromSearched(env, c, R, flow, wc, wc', n + 1)
  {
    hide Searched, Wanted, WantedBySome, StepFrugal, Covers, Best;
    forall i, j | 0 <= i < FLOW_U32S && 0 <= j < 32 && wc'[i][j] && !wc[i][j] ensures WantedBySome(env, c, R, flow, wc, n + 1, i, j) {
      if w[i][j] {
        SomeMore(env, c, R, flow, wc, n, n + 1, i, j);
      } else {
        FrugalWanted(env, c, R, flow, wc, w, wc', n, res, i, j);
        WantedLast(env, c, R, flow, wc, n, i, j);
      }
    }
  }

  lemma WantedLast(env: Env, c: Cls, R: set<Rule>, flow: Flow, wc: Mask, k: nat, i: nat, j: nat)
    requires i < FLOW_U32S && j < 32 && Searched(c, R, flow, k) && Wanted(env, c, R, flow, wc, k, i, j)
    ensures WantedBySome(env, c, R, flow, wc, k + 1, i, j)
  {
    hide Wanted, Searched;
  }

  lemma FrugalWanted(env: Env, c: Cls, R: set<Rule>, flow: Flow, wc: Mask, w: Mask, wc': Mask, k: nat, res: Option<Rule>, i: nat, j: nat)
    requires k < |c.order| && i < FLOW_U32S && j < 32 && Covers(w, wc, 0, FLOW_U32S) && wc'[i][j] && !w[i][j]
    requires StepFrugal(env, c, R, k, flow, w, wc', res) && Best(RulesWith(R, c.order[k].mask), flow, res)
    ensures Wanted(env, c, R, flow, wc, k, i, j)
  {
    hide TrieShape, ClearAt, TrieBit, PT.Find, Bits, PortsValue, PortsApart, Covers, RuleMatches, RulesWith;
    var m := c.order[k].mask;
    var S := RulesWith(R, m);
    if res.None? {
      forall b | ClearAt(env, c.tries, c.subtables[m], S, flow, wc, b) ensures i < b || TrieBit(env, c.tries, flow, i, j) {
        ClearStill(env, c.tries, c.subtables[m], S, flow, wc, w, b);
      }
    }
  }

  /** What is clear from a mask is clear from a larger one. */
  lemma ClearStill(env: Env, tries: seq<ClsTrie>, st: Subtable, S: set<Rule>, flow: Flow, wc: Mask, w: Mask, b: nat)
    requires |tries| == |st.triePlen| && forall j :: 0 <= j < |tries| ==> TrieShape(tries[j])
    requires Covers(w, wc, 0, FLOW_U32S) && ClearAt(env, tries, st, S, flow, wc, b)
    ensures ClearAt(env, tries, st, S, flow, w, b)
  {
    hide PT.Ok, HashUpTo, StageStart, PrefixSet, Covers, TrieAnswer;
    if !(b in st.indexOfs && b <= FLOW_U32S && forall r :: r in S ==> HashUpTo(env, r.flow, st.mask, b) != HashUpTo(env, flow, st.mask, b)) {
      var j :| 0 <= j < |tries| && StageStart(st, tries[j].field.ofs, b) && TrieSkips(env, tries[j], st.triePlen[j], flow, wc);
      var n := TrieAnswer(env, tries[j], flow).checkBits;
      if n <= 32 * tries[j].field.words && PrefixSet(wc, tries[j].field, n) {
        SetStill(wc, w, tries[j].field, n);
      }
      assert TrieSkips(env, tries[j], st.triePlen[j], flow, w);
    }
  }

  lemma SetStill(wc: Mask, w: Mask, fd: Field, n: nat)
    requires FieldOk(fd) && n <= 32 * fd.words && PrefixSet(wc, fd, n) && Covers(w, wc, 0, FLOW_U32S)
    ensures PrefixSet(w, fd, n)
  {
    forall i | 0 <= i < n ensures Bits(FieldWords(w, fd))[i] {
      assert Bits(FieldWords(wc, fd))[i];
      assert wc[fd.ofs + i / 32][i % 32];
    }
  }

  lemma EarlyStep(c: Cls, R: set<Rule>, m: Mask, flow: Flow, wc: Mask, wc': Mask, res: Option<Rule>)
    requires m in c.subtables && c.subtables[m].mask == m && Best(RulesWith(R, m), flow, res)
    requires Confined(wc, c.subtables[m], c.tries) && (NothingLate(m) || (res.None? && c.subtables[m].portsMaskLen > 0)) ==> NothingLate(wc')
    ensures StaysEarly(c, R, flow, wc) ==> StaysEarly(c, R, flow, wc')
  {
    hide NothingLate, RuleMatches;
  }

  lemma CoversSelf(wc: Mask)
    ensures Covers(wc, wc, 0, FLOW_U32S)
  {
  }

  lemma InvTries(env: Env, c: Cls, R: set<Rule>)
    requires Inv(env, c, R)
    ensures forall j :: 0 <= j < |c.tries| ==> TrieShape(c.tries[j])
    ensures PartitionsOk(env, c.partitions, R)
  {
    hide PT.Ok, PT.Count, SubtablesOk, PC.OrderOk;
    forall j | 0 <= j < |c.tries| ensures TrieShape(c.tries[j]) {
      assert TrieOk(c.tries[j], R);
    }
  }

  /** classifier_lookup.  With or without a mask the result is that of the
      simple search, hence a matching rule of highest priority, or None
      exactly when nothing matches.  The mask takes no bit that no searched
      subtable wants.  Every flow with the same metadata that agrees on the
      bits of the extended mask gets the same rule if the rules that differ
      from the flow only behind the ports are below the result; if one is
      above it and nothing behind the ports is in the mask, not.
      What a lookup that finds nothing can be known to do beforehand: it
      leaves those words out, and is right exactly if there are no such rules. */
  method Lookup(env: Env, c: Cls, flow: Flow, useWc: bool, wc: Mask, ghost R: set<Rule>)
    returns (best: Option<Rule>, wc': Mask)
    requires Inv(env, c, R)
    ensures best == Scan(c.order, R, flow, |c.order|) && Best(R, flow, best)
    ensures Covers(wc', wc, 0, FLOW_U32S) && (!useWc ==> wc' == wc) && FromSearched(env, c, R, flow, wc, wc', |c.order|)
    ensures useWc && Harmless(c, R, flow, best) ==> Decided(c, R, flow, wc', |c.order|, best)
    ensures useWc && NothingLate(wc') && Harmful(c, R, flow, best) ==> !Decided(c, R, flow, wc', |c.order|, best)
    ensures useWc && StaysEarly(c, R, flow, wc) ==> NothingLate(wc')
    ensures useWc && NothingLate(wc) && LateBehindPorts(c) && NoMatch(R, flow) ==>
              (Decided(c, R, flow, wc', |c.order|, best) <==> NoHoles(c, R, flow))
  {
    hide Inv, Scan, Best, Covers, Within, FromSearched, StepFrugal, Decided, DecidedOrLow, NoHoles, Harmless, Harmful, StaysEarly, NothingLate, LateBehindPorts, NoMatch, StepSound, PartitionsOk, Intersects, CtxOk, TrieShape, TagOf, SearchTags, RulesWith, Sound, SubOk, PrefixLen;
    InvTries(env, c, R);
    var tags := SearchTags(c, flow);
    var ctxs := seq(|c.tries|, j => TrieCtx(false, 0, 0));
    assert CtxsOk(env, c.tries, ctxs, flow) by { FreshCtxs(env, c.tries, flow, ctxs); }
    ghost var goal := Scan(c.order, R, flow, |c.order|);
    best, wc' := None, wc;
    CoversSelf(wc);
    assert FromSearched(env, c, R, flow, wc, wc, 0) by { NoneSearched(env, c, R, flow, wc); }
    DecidedStart(c, R, flow, wc, goal);
    ScanStart(c.order, R, flow);
    var i := 0;
    while i < |c.order|
      invariant i <= |c.order| && CtxsOk(env, c.tries, ctxs, flow)
      invariant best == Scan(c.order, R, flow, i)
      invariant Covers(wc', wc, 0, FLOW_U32S) && (!useWc ==> wc' == wc) && FromSearched(env, c, R, flow, wc, wc', i)
      invariant useWc && Harmless(c, R, flow, goal) ==> DecidedOrLow(c, R, flow, wc', i, best, goal)
      invariant useWc && StaysEarly(c, R, flow, wc) ==> StaysEarly(c, R, flow, wc')
    {
      if best.Some? && c.order[i].maxPriority <= best.value.priority {
        DecidedTail(env, c, R, flow, wc', i, best, goal);
        FromSearchedMore(env, c, R, flow, wc, wc', i, |c.order|);
        i := |c.order|;
        break;
      }
      EntrySubtable(env, c, R, i);
      if !Intersects(tags, c.order[i].tag) {
        DecidedSkip(env, c, R, flow, wc', i, best, goal);
        FromSearchedMore(env, c, R, flow, wc, wc', i, i + 1);
      } else {
        var r, cs, w := SearchSubtable(env, c, i, flow, ctxs, useWc, wc', R);
        DecidedStep(env, c, R, flow, wc', w, i, best, r, goal);
        if useWc {
          FromSearchedNext(env, c, R, flow, wc, wc', w, i, r);
        } else {
          FromSearchedMore(env, c, R, flow, wc, wc', i, i + 1);
        }
        CoversTrans(w, wc', wc, 0, FLOW_U32S);
        ctxs, wc' := cs, w;
        if Better(r, best) {
          best := r;
        }
      }
      i := i + 1;
    }
    ScanAll(env, c, R, flow);
    LookupDone(env, c, R, flow, useWc, wc, wc', best);
  }

  lemma LookupDone(env: Env, c: Cls, R: set<Rule>, flow: Flow, useWc: bool, wc: Mask, wc': Mask, best: Option<Rule>)
    requires Inv(env, c, R) && Best(R, flow, best)
    requires useWc && Harmless(c, R, flow, best) ==> DecidedOrLow(c, R, flow, wc', |c.order|, best, best)
    requires useWc && StaysEarly(c, R, flow, wc) ==> StaysEarly(c, R, flow, wc')
    ensures useWc && Harmless(c, R, flow, best) ==> Decided(c, R, flow, wc', |c.order|, best)
    ensures useWc && NothingLate(wc') && Harmful(c, R, flow, best) ==> !Decided(c, R, flow, wc', |c.order|, best)
    ensures useWc && StaysEarly(c, R, flow, wc) ==> NothingLate(wc')
    ensures useWc && NothingLate(wc) && LateBehindPorts(c) && NoMatch(R, flow) ==>
              (Decided(c, R, flow, wc', |c.order|, best) <==> NoHoles(c, R, flow))
  {
    hide Inv, Decided, DecidedOrLow, NothingLate, LateBehindPorts, RuleMatches, HoleRule;
    if useWc && Harmless(c, R, flow, best) {
      DecidedEnd(c, R, flow, wc', best);
    }
    if NothingLate(wc') && Harmful(c, R, flow, best) {
      HarmfulUndecided(env, c, R, flow, wc', best);
    }
    HolesOf(c, R, flow, best);
  }

  /** When nothing was found, every such rule does harm. */
  lemma HolesOf(c: Cls, R: set<Rule>, flow: Flow, best: Option<Rule>)
    ensures NoHoles(c, R, flow) ==> Harmless(c, R, flow, best)
    ensures best.None? && !NoHoles(c, R, flow) ==> Harmful(c, R, flow, best)
  {
    hide NoMatch, Agree, RulesWith;
  }

  lemma NoneSearched(env: Env, c: Cls, R: set<Rule>, flow: Flow, wc: Mask)
    ensures FromSearched(env, c, R, flow, wc, wc, 0)
  {
  }

  lemma ScanStart(order: seq<PC.Entry>, R: set<Rule>, f: Flow)
    ensures Scan(order, R, f, 0) == None
  {
  }

  lemma FreshCtxs(env: Env, tries: seq<ClsTrie>, flow: Flow, ctxs: seq<TrieCtx>)
    requires forall j :: 0 <= j < |tries| ==> TrieShape(tries[j])
    requires |ctxs| == |tries| && forall j :: 0 <= j < |ctxs| ==> !ctxs[j].done
    ensures CtxsOk(env, tries, ctxs, flow)
  {
    hide TrieShape;
  }
}
