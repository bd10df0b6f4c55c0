/** Lookup in one subtable, plain and with un-wildcarding: staged hash
    indices, the classifier's prefix tries and the subtable's ports trie. */
module SubtableLookup {
  import opened Options
  import opened Words
  import opened Flows
  import opened Subtables
  import PT = PrefixTrie

  const UINT_MAX: nat := 0xFFFF_FFFF

  predicate RuleMatches(r: Rule, f: Flow) {
    Matches(r.flow, r.mask, f)
  }

  ghost predicate NoMatch(S: set<Rule>, f: Flow) {
    forall r :: r in S ==> !RuleMatches(r, f)
  }

  /** 'res' is a matching rule of highest priority, None exactly when no rule
      of 'S' matches. */
  ghost predicate Best(S: set<Rule>, f: Flow, res: Option<Rule>) {
    match res
    case None => NoMatch(S, f)
    case Some(x) => x in S && RuleMatches(x, f) && forall y :: y in S && RuleMatches(y, f) ==> y.priority <= x.priority
  }

  // ------------------------------------------------ agreement

  lemma AgreeSym(a: Flow, b: Flow, m: Mask, lo: nat, hi: nat)
    requires hi <= FLOW_U32S && Agree(a, b, m, lo, hi)
    ensures Agree(b, a, m, lo, hi)
  {
    forall i | lo <= i < hi ensures SameUnder(b[i], a[i], m[i]) {
      assert SameUnder(a[i], b[i], m[i]);
    }
  }

  lemma AgreeTrans(a: Flow, b: Flow, c: Flow, m: Mask, lo: nat, hi: nat)
    requires hi <= FLOW_U32S && Agree(a, b, m, lo, hi) && Agree(b, c, m, lo, hi)
    ensures Agree(a, c, m, lo, hi)
  {
    forall i | lo <= i < hi ensures SameUnder(a[i], c[i], m[i]) {
      assert SameUnder(a[i], b[i], m[i]) && SameUnder(b[i], c[i], m[i]);
    }
  }

  /** All rules of a subtable that match a flow are in one group. */
  lemma SameGroup(env: Env, st: Subtable, S: set<Rule>, f: Flow, a: Rule, b: Rule)
    requires GroupsOk(env, st.mask, st.groups, S) && a in S && b in S
    requires RuleMatches(a, f) && RuleMatches(b, f)
    ensures a.flow == b.flow
  {
    AgreeSym(b.flow, f, st.mask, 0, FLOW_U32S);
    AgreeTrans(a.flow, f, b.flow, st.mask, 0, FLOW_U32S);
    CanonicalUnique(a.flow, b.flow, st.mask);
  }

  /** The result of a subtable lookup is determined. */
  lemma BestUnique(env: Env, st: Subtable, S: set<Rule>, f: Flow, x: Option<Rule>, y: Option<Rule>)
    requires GroupsOk(env, st.mask, st.groups, S) && Best(S, f, x) && Best(S, f, y)
    ensures x == y
  {
    hide Matches, HashUpTo, Canonical;
    if x.Some? && y.Some? {
      SameGroup(env, st, S, f, x.value, y.value);
      SamePriorityInList(st.groups[x.value.flow].rules, x.value, y.value);
    }
  }

  /** Flows that agree under the subtable's mask get the same result. */
  lemma BestAgree(env: Env, st: Subtable, S: set<Rule>, f: Flow, g: Flow, res: Option<Rule>)
    requires GroupsOk(env, st.mask, st.groups, S) && Best(S, f, res) && Agree(f, g, st.mask, 0, FLOW_U32S)
    ensures Best(S, g, res)
  {
    hide Agree, HashUpTo, Canonical;
    AgreeSym(f, g, st.mask, 0, FLOW_U32S);
    forall r | r in S ensures RuleMatches(r, f) <==> RuleMatches(r, g) {
      if RuleMatches(r, f) { AgreeTrans(r.flow, f, g, st.mask, 0, FLOW_U32S); }
      if RuleMatches(r, g) { AgreeTrans(r.flow, g, f, st.mask, 0, FLOW_U32S); }
    }
  }

  /** find_match: scan the heads with the given hash, in any order. */
  method FindMatch(env: Env, st: Subtable, flow: Flow, hash: Word, ghost S: set<Rule>) returns (res: Option<Rule>)
    requires GroupsOk(env, st.mask, st.groups, S) && hash == HashUpTo(env, flow, st.mask, FLOW_U32S)
    ensures Best(S, flow, res)
  {
    hide HashUpTo, Canonical, Agree;
    var todo := st.groups.Keys;
    while todo != {}
      invariant todo <= st.groups.Keys
      invariant forall k :: k in st.groups && k !in todo ==> !Matches(k, st.mask, flow)
      decreases todo
    {
      var k :| k in todo;
      if st.groups[k].hash == hash {
        var ok := MatchesFlow(k, st.mask, flow);
        if ok {
          var head := st.groups[k].rules[0];
          forall y | y in S && RuleMatches(y, flow) ensures y.priority <= head.priority {
            SameGroup(env, st, S, flow, head, y);
          }
          return Some(head);
        }
      } else {
        if Matches(k, st.mask, flow) {
          HashAgree(env, k, flow, st.mask, FLOW_U32S);
        }
      }
      todo := todo - {k};
    }
    return None;
  }

  // ------------------------------------------------ prefix tries

  datatype ClsTrie = ClsTrie(field: Field, root: PT.Trie)

  /** Per-lookup result of one trie, computed at most once. */
  datatype TrieCtx = TrieCtx(done: bool, matchPlen: nat, maskbits: nat)

  predicate TrieShape(t: ClsTrie) {
    FieldOk(t.field) && PT.Ok(t.root, true, 32 * t.field.words)
  }

  /** Every rule of the subtable has its prefix in the trie. */
  ghost predicate TrieHolds(t: ClsTrie, plen: nat, mask: Mask, S: set<Rule>)
    requires TrieShape(t)
  {
    plen > 0 ==>
      && plen == PrefixLen(mask, t.field) && plen <= 32 * t.field.words
      && forall r :: r in S ==> PT.Count(t.root, Bits(FieldWords(r.flow, t.field))[..plen]) > 0
  }

  ghost predicate CtxOk(env: Env, t: ClsTrie, flow: Flow, ctx: TrieCtx)
    requires TrieShape(t)
  {
    ctx.done ==>
      if env.prereqs(t.field, flow)
      then PT.Found(ctx.matchPlen, ctx.maskbits) == PT.Find(t.root, Bits(FieldWords(flow, t.field)), true)
      else ctx.matchPlen == UINT_MAX && ctx.maskbits == 0
  }

  ghost predicate TriesOk(env: Env, tries: seq<ClsTrie>, ctxs: seq<TrieCtx>, flow: Flow, st: Subtable, S: set<Rule>) {
    && |ctxs| == |tries| == |st.triePlen|
    && forall j :: 0 <= j < |tries| ==>
         TrieShape(tries[j]) && CtxOk(env, tries[j], flow, ctxs[j]) && TrieHolds(tries[j], st.triePlen[j], st.mask, S)
  }

  /** No rule agrees with 'f' on the words of 'fd'. */
  ghost predicate FieldMiss(S: set<Rule>, mask: Mask, fd: Field, f: Flow)
    requires FieldOk(fd)
  {
    forall r :: r in S ==> !Agree(r.flow, f, mask, fd.ofs, fd.ofs + fd.words)
  }

  /** A flow whose longest stored prefix is too short matches no rule. */
  lemma ShortPrefixMisses(t: ClsTrie, plen: nat, mask: Mask, S: set<Rule>, f: Flow)
    requires TrieShape(t) && TrieHolds(t, plen, mask, S)
    requires plen > PT.Find(t.root, Bits(FieldWords(f, t.field)), true).matchLen
    ensures FieldMiss(S, mask, t.field, f)
  {
    hide Bits, PT.Ok, PT.Find, PT.Count, Agree, PrefixLen;
    var v := Bits(FieldWords(f, t.field));
    PT.FindSpec(t.root, true, v, true);
    forall r | r in S ensures !Agree(r.flow, f, mask, t.field.ofs, t.field.ofs + t.field.words) {
      if Agree(r.flow, f, mask, t.field.ofs, t.field.ofs + t.field.words) {
        PrefixMaskAgree(r.flow, f, mask, t.field);
      }
    }
  }

  /** The bits a trie lookup needed decide the miss for every flow. */
  lemma TrieSkipSound(t: ClsTrie, plen: nat, mask: Mask, S: set<Rule>, flow: Flow, wc: Mask, f: Flow)
    requires TrieShape(t) && TrieHolds(t, plen, mask, S)
    requires var r := PT.Find(t.root, Bits(FieldWords(flow, t.field)), true);
             plen > r.matchLen && r.checkBits <= 32 * t.field.words && PrefixSet(wc, t.field, r.checkBits)
    requires Agree(flow, f, wc, 0, FLOW_U32S)
    ensures FieldMiss(S, mask, t.field, f)
  {
    hide Bits, PT.Ok, PT.Find, PT.Count, Agree, PrefixLen, PrefixSet, FieldMiss;
    var v, w := Bits(FieldWords(flow, t.field)), Bits(FieldWords(f, t.field));
    PrefixAgree(flow, f, wc, t.field, PT.Find(t.root, v, true).checkBits);
    PT.FindStable(t.root, true, v, w, true);
    ShortPrefixMisses(t, plen, mask, S, f);
  }

  lemma FieldMissNoMatch(env: Env, st: Subtable, S: set<Rule>, fd: Field, f: Flow)
    requires GroupsOk(env, st.mask, st.groups, S) && FieldOk(fd) && FieldMiss(S, st.mask, fd, f)
    ensures NoMatch(S, f)
  {
    hide SameUnder, HashUpTo, Canonical;
    forall r | r in S ensures !RuleMatches(r, f) {
      MatchesRange(r.flow, f, st.mask, fd.ofs, fd.ofs + fd.words);
    }
  }

  lemma MatchesRange(a: Flow, f: Flow, m: Mask, lo: nat, hi: nat)
    requires hi <= FLOW_U32S
    ensures Matches(a, m, f) ==> Agree(a, f, m, lo, hi)
  {
  }

  /** trie_lookup, done when first needed. */
  method TrieLookup(env: Env, t: ClsTrie, flow: Flow, ctx: TrieCtx) returns (out: TrieCtx)
    requires TrieShape(t) && CtxOk(env, t, flow, ctx)
    ensures out.done && CtxOk(env, t, flow, out)
  {
    hide PT.Ok, PT.Find, Bits;
    if ctx.done {
      return ctx;
    }
    if env.prereqs(t.field, flow) {
      var m, c := PT.LookupValue(t.root, FieldWords(flow, t.field), 32 * t.field.words);
      return TrieCtx(true, m, c);
    }
    return TrieCtx(true, UINT_MAX, 0);
  }

  /** What the trie of a field says about a flow. */
  function TrieAnswer(env: Env, t: ClsTrie, flow: Flow): PT.Found
    requires TrieShape(t)
  {
    if env.prereqs(t.field, flow) then PT.Find(t.root, Bits(FieldWords(flow, t.field)), true) else PT.Found(UINT_MAX, 0)
  }

  /** The trie shows that the subtable has no match, and telling so takes no
      bits that its mask does not have anyway. */
  ghost predicate TrieSkips(env: Env, t: ClsTrie, plen: nat, flow: Flow, wc: Mask)
    requires TrieShape(t)
  {
    var a := TrieAnswer(env, t, flow);
    plen > 0 && plen > a.matchLen && (a.checkBits <= plen || (a.checkBits <= 32 * t.field.words && PrefixSet(wc, t.field, a.checkBits)))
  }

  ghost predicate SkipIn(env: Env, tries: seq<ClsTrie>, st: Subtable, flow: Flow, wc: Mask, start: nat, end: nat)
    requires |tries| == |st.triePlen| && forall j :: 0 <= j < |tries| ==> TrieShape(tries[j])
  {
    exists j :: 0 <= j < |tries| && start <= tries[j].field.ofs < end && TrieSkips(env, tries[j], st.triePlen[j], flow, wc)
  }

  /** A bit that the lookup in some trie needed. */
  ghost predicate TrieBit(env: Env, tries: seq<ClsTrie>, flow: Flow, i: int, k: int)
    requires forall j :: 0 <= j < |tries| ==> TrieShape(tries[j])
  {
    exists j :: 0 <= j < |tries| && InPrefix(tries[j].field, TrieAnswer(env, tries[j], flow).checkBits, i, k)
  }

  /** Every bit of the new mask was there before or is in m. */
  ghost predicate Within(r: Mask, wc: Mask, m: Mask) {
    forall i, k :: 0 <= i < FLOW_U32S && 0 <= k < 32 && r[i][k] ==> wc[i][k] || m[i][k]
  }

  lemma PrefixWithin(r: Mask, wc: Mask, mask: Mask, fd: Field, n: nat)
    requires FieldOk(fd) && OnlyPrefix(r, wc, fd, n) && n <= PrefixLen(mask, fd)
    ensures Within(r, wc, mask)
  {
    hide PrefixLen, Bits;
    if n > 0 {
      PrefixLenShape(mask, fd);
      forall i, k | 0 <= i < FLOW_U32S && 0 <= k < 32 && InPrefix(fd, n, i, k) ensures mask[i][k] {
        BitsAt(FieldWords(mask, fd), i - fd.ofs, k);
      }
    }
  }

  /** check_tries: can the rest of the subtable be skipped? */
  method CheckTries(env: Env, tries: seq<ClsTrie>, ctxs: seq<TrieCtx>, st: Subtable, start: nat, end: nat,
                    flow: Flow, wc: Mask, ghost S: set<Rule>)
    returns (skip: bool, ctxs': seq<TrieCtx>, wc': Mask, ghost which: nat)
    requires GroupsOk(env, st.mask, st.groups, S) && TriesOk(env, tries, ctxs, flow, st, S)
    ensures TriesOk(env, tries, ctxs', flow, st, S)
    ensures Covers(wc', wc, 0, FLOW_U32S)
    ensures !skip ==> wc' == wc
    ensures skip <==> SkipIn(env, tries, st, flow, wc, start, end)
    ensures skip ==> which < |tries| && FieldMiss(S, st.mask, tries[which].field, flow)
    ensures skip ==> Within(wc', wc, st.mask) && OnlyPrefix(wc', wc, tries[which].field, TrieAnswer(env, tries[which], flow).checkBits)
    ensures skip ==> forall f: Flow :: Agree(flow, f, wc', 0, FLOW_U32S) ==> NoMatch(S, f)
  {
    hide PT.Ok, PT.Find, PT.Count, Bits, Agree, PrefixLen, PrefixSet, GroupsOk, NoMatch, FieldMiss, Within, OnlyPrefix;
    ctxs', wc', which := ctxs, wc, 0;
    NothingAdded(wc, st.mask);
    var j := 0;
    while j < |tries|
      invariant j <= |tries|
      invariant TriesOk(env, tries, ctxs', flow, st, S)
      invariant forall k :: 0 <= k < j && start <= tries[k].field.ofs < end ==> !TrieSkips(env, tries[k], st.triePlen[k], flow, wc)
    {
      var t, plen := tries[j], st.triePlen[j];
      if plen > 0 && start <= t.field.ofs < end {
        var ctx := TrieLookup(env, t, flow, ctxs'[j]);
        ctxs' := ctxs'[j := ctx];
        if plen > ctx.matchPlen {
          PT.FindSpec(t.root, true, Bits(FieldWords(flow, t.field)), true);
          ShortPrefixMisses(t, plen, st.mask, S, flow);
          var isSet := MaskPrefixBitsSet(wc, t.field, ctx.maskbits);
          if isSet || ctx.maskbits <= plen {
            if !isSet {
              wc' := MaskSetPrefixBits(wc, t.field, ctx.maskbits);
              PrefixWithin(wc', wc, st.mask, t.field, ctx.maskbits);
            }
            forall f: Flow | Agree(flow, f, wc', 0, FLOW_U32S) ensures NoMatch(S, f) {
              TrieSkipSound(t, plen, st.mask, S, flow, wc', f);
              FieldMissNoMatch(env, st, S, t.field, f);
            }
            return true, ctxs', wc', j;
          }
        }
      }
      j := j + 1;
    }
    return false, ctxs', wc', 0;
  }

  lemma NothingAdded(wc: Mask, m: Mask)
    ensures Within(wc, wc, m) && forall fd, n :: OnlyPrefix(wc, wc, fd, n)
  {
  }

  // ------------------------------------------------ staged indices

  function NodesWithHash(index: set<(Word, Rule)>, hash: Word): set<Rule> {
    set p | p in index && p.0 == hash :: p.1
  }

  /** A rule that agrees up to the boundary is among the nodes found there. */
  lemma AgreeingIsFound(env: Env, st: Subtable, S: set<Rule>, i: nat, f: Flow, r: Rule)
    requires IndicesOk(env, st, S) && i < |st.indices| && r in S
    requires Agree(r.flow, f, st.mask, 0, st.indexOfs[i])
    ensures r in NodesWithHash(st.indices[i], HashUpTo(env, f, st.mask, st.indexOfs[i]))
  {
    hide Agree, HashUpTo;
    HashAgree(env, r.flow, f, st.mask, st.indexOfs[i]);
    assert IndexOk(env, st.mask, st.indexOfs[i], st.indices[i], S);
    assert (HashUpTo(env, r.flow, st.mask, st.indexOfs[i]), r) in st.indices[i];
  }

  /** Nodes found in an index are rules of the subtable. */
  lemma FoundIsRule(env: Env, st: Subtable, S: set<Rule>, i: nat, hash: Word)
    requires IndicesOk(env, st, S) && i < |st.indices|
    ensures NodesWithHash(st.indices[i], hash) <= S
  {
    hide HashUpTo;
    assert IndexOk(env, st.mask, st.indexOfs[i], st.indices[i], S);
  }

  /** An empty index entry excludes every flow with the same leading words. */
  lemma EmptyIndexMisses(env: Env, st: Subtable, S: set<Rule>, i: nat, flow: Flow, f: Flow)
    requires GroupsOk(env, st.mask, st.groups, S) && IndicesOk(env, st, S) && i < |st.indices|
    requires NodesWithHash(st.indices[i], HashUpTo(env, flow, st.mask, st.indexOfs[i])) == {}
    requires Agree(flow, f, st.mask, 0, st.indexOfs[i])
    ensures NoMatch(S, f)
  {
    hide Agree, HashUpTo, Canonical, NodesWithHash, IndexOk;
    HashAgree(env, flow, f, st.mask, st.indexOfs[i]);
    forall r | r in S ensures !RuleMatches(r, f) {
      if RuleMatches(r, f) {
        MatchesRange(r.flow, f, st.mask, 0, st.indexOfs[i]);
        AgreeingIsFound(env, st, S, i, f, r);
      }
    }
  }

  /** When one rule is left, it is the answer or there is none. */
  lemma SingleCandidate(env: Env, st: Subtable, S: set<Rule>, i: nat, flow: Flow, x: Rule)
    requires GroupsOk(env, st.mask, st.groups, S) && IndicesOk(env, st, S) && i < |st.indices|
    requires NodesWithHash(st.indices[i], HashUpTo(env, flow, st.mask, st.indexOfs[i])) == {x}
    ensures x in S && Best(S, flow, if RuleMatches(x, flow) then Some(x) else None)
  {
    hide Agree, HashUpTo, Canonical, NodesWithHash, IndexOk;
    FoundIsRule(env, st, S, i, HashUpTo(env, flow, st.mask, st.indexOfs[i]));
    forall r | r in S && RuleMatches(r, flow) ensures r == x {
      MatchesRange(r.flow, flow, st.mask, 0, st.indexOfs[i]);
      AgreeingIsFound(env, st, S, i, flow, r);
    }
  }

  // ------------------------------------------------ ports trie

  /** No rule matches 'f', yet some rule agrees with it up to and including
      the ports word: it differs only in words after the ports. */
  ghost predicate PortsHole(st: Subtable, S: set<Rule>, f: Flow) {
    && st.portsMaskLen > 0 && NoMatch(S, f)
    && exists r :: r in S && Agree(r.flow, f, st.mask, 0, TP_PORTS_OFS32 + 1)
  }

  /** There is no such flow if no mask bit follows the ports word. */
  lemma NoHoleWithoutLaterWords(env: Env, st: Subtable, S: set<Rule>, f: Flow)
    requires GroupsOk(env, st.mask, st.groups, S)
    requires st.portsMaskLen > 0 ==> forall i :: TP_PORTS_OFS32 < i < FLOW_U32S ==> st.mask[i] == Zero()
    ensures !PortsHole(st, S, f)
  {
    hide HashUpTo, Canonical;
    if st.portsMaskLen > 0 {
      forall r | r in S && Agree(r.flow, f, st.mask, 0, TP_PORTS_OFS32 + 1) ensures RuleMatches(r, f) {
      }
    }
  }

  function PortsValue(f: Flow, mask: Mask): (v: seq<Word>)
    ensures |v| == 1
  {
    [And(f[TP_PORTS_OFS32], mask[TP_PORTS_OFS32])]
  }

  /** The ports word with the bits the ports trie looked at. */
  function PortsWc(wc: Mask, mask: Mask, mbits: nat): Mask
    requires mbits <= 32
  {
    wc[TP_PORTS_OFS32 := Or(wc[TP_PORTS_OFS32], And(mask[TP_PORTS_OFS32], HighMask(mbits)))]
  }

  lemma PortsWcBits(wc: Mask, mask: Mask, mbits: nat, j: nat)
    requires mbits <= 32 && j < 32
    ensures PortsWc(wc, mask, mbits)[TP_PORTS_OFS32][j]
         == (wc[TP_PORTS_OFS32][j] || (mask[TP_PORTS_OFS32][j] && j < mbits))
  {
    ShlAt(Ones(), 32 - mbits, j);
  }

  lemma MaskedBits(f: Flow, mask: Mask, j: nat)
    requires j < 32
    ensures Bits(PortsValue(f, mask))[j] == (f[TP_PORTS_OFS32][j] && mask[TP_PORTS_OFS32][j])
  {
    BitsAt(PortsValue(f, mask), 0, j);
  }

  /** Agreement on the looked-at bits of the ports word, as bit strings. */
  lemma PortsPrefixAgree(flow: Flow, f: Flow, wc: Mask, mask: Mask, mbits: nat)
    requires mbits <= 32
    requires SameUnder(flow[TP_PORTS_OFS32], f[TP_PORTS_OFS32], PortsWc(wc, mask, mbits)[TP_PORTS_OFS32])
    ensures Bits(PortsValue(flow, mask))[..mbits] == Bits(PortsValue(f, mask))[..mbits]
  {
    hide Bits, PortsWc, PortsValue;
    forall j | 0 <= j < mbits
      ensures Bits(PortsValue(flow, mask))[j] == Bits(PortsValue(f, mask))[j]
    {
      MaskedBits(flow, mask, j);
      MaskedBits(f, mask, j);
      PortsWcBits(wc, mask, mbits, j);
    }
  }

  /** Sharing as many masked ports bits as the mask has is agreeing there. */
  lemma PortsAllAgree(flow: Flow, f: Flow, mask: Mask, n: nat)
    requires PortsMaskLen(mask) <= n <= 32
    requires Bits(PortsValue(flow, mask))[..n] == Bits(PortsValue(f, mask))[..n]
    ensures SameUnder(flow[TP_PORTS_OFS32], f[TP_PORTS_OFS32], mask[TP_PORTS_OFS32])
  {
    hide Bits, PortsValue;
    var a, b := Bits(PortsValue(flow, mask)), Bits(PortsValue(f, mask));
    forall j | 0 <= j < 32 && mask[TP_PORTS_OFS32][j]
      ensures flow[TP_PORTS_OFS32][j] == f[TP_PORTS_OFS32][j]
    {
      MaskedBits(flow, mask, j);
      MaskedBits(f, mask, j);
      assert j < PortsMaskLen(mask);
      assert a[j] == a[..n][j] && b[j] == b[..n][j];
    }
  }

  /** A rule that matches 'f' keeps f's masked ports in the ports trie. */
  lemma MatchingPortsStored(st: Subtable, S: set<Rule>, f: Flow, r: Rule)
    requires PortsOk(st.portsTrie, st.portsMaskLen, S) && st.portsMaskLen > 0
    requires r in S && r.mask == st.mask && RuleMatches(r, f)
    ensures PT.Count(st.portsTrie, Bits(PortsValue(f, st.mask))[..st.portsMaskLen]) > 0
  {
    hide PT.Ok, PT.Count, Bits;
    assert SameUnder(r.flow[TP_PORTS_OFS32], f[TP_PORTS_OFS32], st.mask[TP_PORTS_OFS32]);
    WordMatchesIsSameUnder(r.flow[TP_PORTS_OFS32], f[TP_PORTS_OFS32], st.mask[TP_PORTS_OFS32]);
    var q := Bits(PortsValue(f, st.mask))[..st.portsMaskLen];
    assert r in WithPorts(S, st.portsMaskLen, q);
  }

  /** If some rule matches 'f' and 'f' shares the bits the ports trie needed
      for 'flow', then 'flow' has the same masked ports as 'f'. */
  lemma PortsTrieDecides(env: Env, st: Subtable, S: set<Rule>, flow: Flow, f: Flow, r: Rule)
    requires SubOk(env, st, S) && st.portsMaskLen > 0
    requires r in S && RuleMatches(r, f)
    requires var c := PT.Find(st.portsTrie, Bits(PortsValue(flow, st.mask)), true).checkBits;
             c <= 32 && Bits(PortsValue(flow, st.mask))[..c] == Bits(PortsValue(f, st.mask))[..c]
    ensures SameUnder(flow[TP_PORTS_OFS32], f[TP_PORTS_OFS32], st.mask[TP_PORTS_OFS32])
  {
    hide PT.Ok, PT.Count, PT.Find, Bits, PortsValue, PortsMaskLen, SameUnder, Canonical, HashUpTo, IndexOk;
    var v, w := Bits(PortsValue(flow, st.mask)), Bits(PortsValue(f, st.mask));
    PortsLength(flow, st.mask);
    PortsLength(f, st.mask);
    MatchingPortsStored(st, S, f, r);
    PT.FindStable(st.portsTrie, true, v, w, true);
    PT.FindSpec(st.portsTrie, true, w, true);
    PortsAllAgree(flow, f, st.mask, PT.Find(st.portsTrie, v, true).checkBits);
  }

  lemma PortsLength(f: Flow, mask: Mask)
    ensures |Bits(PortsValue(f, mask))| == 32
  {
  }

  /** A flow that agrees on the mask the ports branch produces matches only
      rules that agree with the flow looked up as far as the ports. */
  lemma PortsBranchHoles(env: Env, st: Subtable, S: set<Rule>, flow: Flow, wc: Mask, out: Mask, f: Flow)
    requires SubOk(env, st, S) && st.portsMaskLen > 0
    requires PT.Find(st.portsTrie, Bits(PortsValue(flow, st.mask)), true).checkBits <= 32
    requires out == FoldRange(PortsWc(wc, st.mask, PT.Find(st.portsTrie, Bits(PortsValue(flow, st.mask)), true).checkBits),
                              st.mask, 0, TP_PORTS_OFS32)
    requires Agree(flow, f, out, 0, FLOW_U32S)
    ensures OnlyHoleRules(st, S, flow, f)
  {
    hide PT.Find, Bits, PortsValue, PortsWc, SameUnder, Canonical, HashUpTo, IndexOk, PT.Ok, PT.Count, PortsOk, MaxOk;
    var c := PT.Find(st.portsTrie, Bits(PortsValue(flow, st.mask)), true).checkBits;
    var mid := PortsWc(wc, st.mask, c);
    FoldRangeCovers(mid, st.mask, 0, TP_PORTS_OFS32);
    AgreeCovered(flow, f, out, st.mask, 0, TP_PORTS_OFS32);
    assert out[TP_PORTS_OFS32] == mid[TP_PORTS_OFS32];
    PortsPrefixAgree(flow, f, wc, st.mask, c);
    forall r | r in S && RuleMatches(r, f) ensures Agree(r.flow, flow, st.mask, 0, TP_PORTS_OFS32 + 1) {
      PortsTrieDecides(env, st, S, flow, f, r);
      MatchesRange(r.flow, f, st.mask, 0, TP_PORTS_OFS32 + 1);
      AgreeSym(flow, f, st.mask, 0, TP_PORTS_OFS32 + 1);
      AgreeTrans(r.flow, f, flow, st.mask, 0, TP_PORTS_OFS32 + 1);
    }
  }

  // ------------------------------------------------ the whole lookup

  /** Nothing past the ports word is un-wildcarded, staged or tracked. */
  ghost predicate Confined(wc: Mask, st: Subtable, tries: seq<ClsTrie>) {
    && NothingLate(wc)
    && (forall i :: 0 <= i < |st.indexOfs| ==> st.indexOfs[i] <= TP_PORTS_OFS32 + 1)
    && (forall j :: 0 <= j < |tries| ==> tries[j].field.ofs + tries[j].field.words <= TP_PORTS_OFS32 + 1)
  }

  predicate NothingLate(wc: Mask) {
    forall i :: TP_PORTS_OFS32 < i < FLOW_U32S ==> wc[i] == Zero()
  }

  /** The result holds for every flow that agrees on the produced mask. */
  ghost predicate Sound(S: set<Rule>, flow: Flow, wc: Mask, res: Option<Rule>) {
    forall f: Flow :: Agree(flow, f, wc, 0, FLOW_U32S) ==> Best(S, f, res)
  }

  /** The result holds for every flow that agrees on the produced mask, but
      that after a miss such a flow may match rules that agree with the flow
      looked up as far as the ports. */
  ghost predicate SoundButHoles(st: Subtable, S: set<Rule>, flow: Flow, wc: Mask, res: Option<Rule>) {
    forall f: Flow :: Agree(flow, f, wc, 0, FLOW_U32S) ==> Best(S, f, res) || (res.None? && OnlyHoleRules(st, S, flow, f))
  }

  ghost predicate OnlyHoleRules(st: Subtable, S: set<Rule>, flow: Flow, f: Flow) {
    st.portsMaskLen > 0 && forall r :: r in S && RuleMatches(r, f) ==> Agree(r.flow, flow, st.mask, 0, TP_PORTS_OFS32 + 1)
  }

  lemma SoundMore(st: Subtable, S: set<Rule>, flow: Flow, wc: Mask, res: Option<Rule>)
    requires Sound(S, flow, wc, res)
    ensures SoundButHoles(st, S, flow, wc, res)
  {
    hide Best, Agree, OnlyHoleRules;
  }

  lemma NoHoleSound(st: Subtable, S: set<Rule>, flow: Flow, wc: Mask)
    requires SoundButHoles(st, S, flow, wc, None) && NoMatch(S, flow) && !PortsHole(st, S, flow)
    ensures Sound(S, flow, wc, None)
  {
    hide Agree, RuleMatches;
  }

  /** By the boundary b it is clear that nothing matches: no rule has the
      flow's hash up to there, or it is the start of the stage of a trie that
      tells so. */
  ghost predicate ClearAt(env: Env, tries: seq<ClsTrie>, st: Subtable, S: set<Rule>, flow: Flow, wc: Mask, b: nat)
    requires |tries| == |st.triePlen| && forall j :: 0 <= j < |tries| ==> TrieShape(tries[j])
  {
    || (b in st.indexOfs && b <= FLOW_U32S && forall r :: r in S ==> HashUpTo(env, r.flow, st.mask, b) != HashUpTo(env, flow, st.mask, b))
    || exists j :: 0 <= j < |tries| && StageStart(st, tries[j].field.ofs, b) && TrieSkips(env, tries[j], st.triePlen[j], flow, wc)
  }

  predicate StageStart(st: Subtable, ofs: nat, b: nat) {
    (b == 0 || b in st.indexOfs) && b <= ofs && forall x :: x in st.indexOfs && x <= ofs ==> x <= b
  }

  /** From word b on only bits that some trie needed were added. */
  ghost predicate QuietFrom(env: Env, tries: seq<ClsTrie>, flow: Flow, wc: Mask, out: Mask, b: nat)
    requires forall j :: 0 <= j < |tries| ==> TrieShape(tries[j])
  {
    forall i, k :: b <= i < FLOW_U32S && 0 <= k < 32 && out[i][k] ==> wc[i][k] || TrieBit(env, tries, flow, i, k)
  }

  /** In the ports word only as many bits as the ports trie needed. */
  ghost predicate PortsQuiet(st: Subtable, flow: Flow, wc: Mask, out: Mask) {
    forall k :: 0 <= k < 32 && out[TP_PORTS_OFS32][k] ==>
      wc[TP_PORTS_OFS32][k] || k < PT.Find(st.portsTrie, Bits(PortsValue(flow, st.mask)), true).checkBits
  }

  /** The ports word is neither staged nor tracked. */
  ghost predicate PortsApart(st: Subtable, tries: seq<ClsTrie>) {
    && (forall i :: 0 <= i < |st.indexOfs| ==> st.indexOfs[i] <= TP_PORTS_OFS32)
    && (forall j :: 0 <= j < |tries| ==> tries[j].field.ofs + tries[j].field.words <= TP_PORTS_OFS32 || TP_PORTS_OFS32 < tries[j].field.ofs)
  }

  /** The bits that a lookup may add to the mask: only bits of the subtable's
      mask; after a miss none behind the point where it was clear, but for
      those a trie needed, and in the ports no more than decide. */
  ghost predicate Frugal(env: Env, tries: seq<ClsTrie>, st: Subtable, S: set<Rule>, flow: Flow, wc: Mask, out: Mask, res: Option<Rule>)
    requires |tries| == |st.triePlen| && forall j :: 0 <= j < |tries| ==> TrieShape(tries[j])
  {
    && Within(out, wc, st.mask)
    && (res.None? ==> forall b :: ClearAt(env, tries, st, S, flow, wc, b) ==> QuietFrom(env, tries, flow, wc, out, b))
    && (res.None? && st.portsMaskLen > 0 && PortsApart(st, tries) ==> PortsQuiet(st, flow, wc, out))
  }

  lemma FoldWithin(w: Mask, wc: Mask, m: Mask, hi: nat)
    requires hi <= FLOW_U32S && Within(w, wc, m)
    ensures Within(FoldRange(w, m, 0, hi), wc, m)
    ensures forall i :: hi <= i < FLOW_U32S ==> FoldRange(w, m, 0, hi)[i] == w[i]
  {
  }

  /** What the stages passed have shown. */
  ghost predicate NotYetClear(env: Env, tries: seq<ClsTrie>, st: Subtable, flow: Flow, wc: Mask, n: nat, start: nat)
    requires |tries| == |st.triePlen| && forall j :: 0 <= j < |tries| ==> TrieShape(tries[j])
    requires n <= |st.indexOfs| == |st.indices| && forall i :: 0 <= i < |st.indexOfs| ==> st.indexOfs[i] <= FLOW_U32S
  {
    && !SkipIn(env, tries, st, flow, wc, 0, start)
    && forall i :: 0 <= i < n ==> NodesWithHash(st.indices[i], HashUpTo(env, flow, st.mask, st.indexOfs[i])) != {}
  }

  /** A boundary with a rule of the same hash is not one of these. */
  lemma NotClearByHash(env: Env, st: Subtable, S: set<Rule>, flow: Flow, n: nat, b: nat)
    requires IndicesOk(env, st, S) && n <= |st.indexOfs| && b in st.indexOfs
    requires forall i :: 0 <= i < n ==> NodesWithHash(st.indices[i], HashUpTo(env, flow, st.mask, st.indexOfs[i])) != {}
    requires forall r :: r in S ==> HashUpTo(env, r.flow, st.mask, b) != HashUpTo(env, flow, st.mask, b)
    ensures n < |st.indexOfs| && st.indexOfs[n] <= b
  {
    hide HashUpTo;
    var i :| 0 <= i < |st.indexOfs| && st.indexOfs[i] == b;
    assert IndexOk(env, st.mask, st.indexOfs[i], st.indices[i], S);
    assert NodesWithHash(st.indices[i], HashUpTo(env, flow, st.mask, b)) == {};
  }

  /** So it becomes clear no earlier than there, and after the last stage not
      at all. */
  lemma ClearLater(env: Env, tries: seq<ClsTrie>, st: Subtable, S: set<Rule>, flow: Flow, wc: Mask, n: nat, start: nat, b: nat)
    requires IndicesOk(env, st, S) && |tries| == |st.triePlen| && forall j :: 0 <= j < |tries| ==> TrieShape(tries[j])
    requires n <= |st.indexOfs| && NotYetClear(env, tries, st, flow, wc, n, start) && ClearAt(env, tries, st, S, flow, wc, b)
    ensures (n == 0 && start == 0) || (0 < n && start == st.indexOfs[n - 1]) ==> b >= start
    ensures !(n == |st.indexOfs| && start == FLOW_U32S)
  {
    hide PT.Ok, TrieSkips, HashUpTo, IndexOk, NodesWithHash;
    if b in st.indexOfs && b <= FLOW_U32S && forall r :: r in S ==> HashUpTo(env, r.flow, st.mask, b) != HashUpTo(env, flow, st.mask, b) {
      NotClearByHash(env, st, S, flow, n, b);
    } else {
      var j :| 0 <= j < |tries| && StageStart(st, tries[j].field.ofs, b) && TrieSkips(env, tries[j], st.triePlen[j], flow, wc);
      assert TrieShape(tries[j]);
      assert tries[j].field.ofs >= start;
      assert 0 < n ==> st.indexOfs[n - 1] in st.indexOfs;
    }
  }

  /** With a hole, a mask that leaves the later words out is unsound. */
  lemma HoleUnsound(env: Env, st: Subtable, S: set<Rule>, flow: Flow, wc: Mask)
    requires GroupsOk(env, st.mask, st.groups, S) && PortsHole(st, S, flow) && NothingLate(wc)
    ensures !Sound(S, flow, wc, None)
  {
    hide HashUpTo, Canonical;
    var r :| r in S && Agree(r.flow, flow, st.mask, 0, TP_PORTS_OFS32 + 1);
    var f: Flow := flow[..TP_PORTS_OFS32 + 1] + r.flow[TP_PORTS_OFS32 + 1..];
    forall i | 0 <= i < FLOW_U32S ensures SameUnder(r.flow[i], f[i], st.mask[i]) {
      if i <= TP_PORTS_OFS32 { assert SameUnder(r.flow[i], flow[i], st.mask[i]); }
    }
    assert Agree(flow, f, wc, 0, FLOW_U32S);
    assert RuleMatches(r, f);
  }

  lemma FieldMissNoHole(st: Subtable, S: set<Rule>, fd: Field, f: Flow)
    requires FieldOk(fd) && FieldMiss(S, st.mask, fd, f) && fd.ofs + fd.words <= TP_PORTS_OFS32 + 1
    ensures !PortsHole(st, S, f)
  {
    forall r | r in S ensures !Agree(r.flow, f, st.mask, 0, TP_PORTS_OFS32 + 1) {
      SubRange(r.flow, f, st.mask, 0, TP_PORTS_OFS32 + 1, fd.ofs, fd.ofs + fd.words);
    }
  }

  lemma SubRange(a: Flow, f: Flow, m: Mask, lo: nat, hi: nat, lo': nat, hi': nat)
    requires lo <= lo' && hi' <= hi <= FLOW_U32S
    ensures Agree(a, f, m, lo, hi) ==> Agree(a, f, m, lo', hi')
  {
  }

  lemma EmptyIndexNoHole(env: Env, st: Subtable, S: set<Rule>, i: nat, flow: Flow)
    requires IndicesOk(env, st, S) && i < |st.indices| && st.indexOfs[i] <= TP_PORTS_OFS32 + 1
    requires NodesWithHash(st.indices[i], HashUpTo(env, flow, st.mask, st.indexOfs[i])) == {}
    ensures !PortsHole(st, S, flow)
  {
    hide Agree, HashUpTo, NodesWithHash, IndexOk;
    forall r | r in S ensures !Agree(r.flow, flow, st.mask, 0, TP_PORTS_OFS32 + 1) {
      SubRange(r.flow, flow, st.mask, 0, TP_PORTS_OFS32 + 1, 0, st.indexOfs[i]);
      if Agree(r.flow, flow, st.mask, 0, st.indexOfs[i]) {
        AgreeingIsFound(env, st, S, i, flow, r);
      }
    }
  }

  /** Folding in the whole mask is always sound. */
  lemma FullFoldSound(env: Env, st: Subtable, S: set<Rule>, flow: Flow, wc: Mask, res: Option<Rule>)
    requires GroupsOk(env, st.mask, st.groups, S) && Best(S, flow, res)
    ensures Sound(S, flow, FoldRange(wc, st.mask, 0, FLOW_U32S), res)
  {
    hide GroupsOk, Best, Agree, FoldRange;
    var out := FoldRange(wc, st.mask, 0, FLOW_U32S);
    FoldRangeCovers(wc, st.mask, 0, FLOW_U32S);
    forall f: Flow | Agree(flow, f, out, 0, FLOW_U32S) ensures Best(S, f, res) {
      AgreeCovered(flow, f, out, st.mask, 0, FLOW_U32S);
      BestAgree(env, st, S, flow, f, res);
    }
  }

  /** Stopping at an empty index entry is sound. */
  lemma EmptyIndexSound(env: Env, st: Subtable, S: set<Rule>, i: nat, flow: Flow, wc: Mask)
    requires GroupsOk(env, st.mask, st.groups, S) && IndicesOk(env, st, S) && i < |st.indices|
    requires NodesWithHash(st.indices[i], HashUpTo(env, flow, st.mask, st.indexOfs[i])) == {}
    ensures Sound(S, flow, FoldRange(wc, st.mask, 0, st.indexOfs[i]), None)
  {
    hide GroupsOk, IndexOk, NodesWithHash, HashUpTo, Agree, FoldRange;
    var out := FoldRange(wc, st.mask, 0, st.indexOfs[i]);
    FoldRangeCovers(wc, st.mask, 0, st.indexOfs[i]);
    forall f: Flow | Agree(flow, f, out, 0, FLOW_U32S) ensures Best(S, f, None) {
      AgreeCovered(flow, f, out, st.mask, 0, st.indexOfs[i]);
      EmptyIndexMisses(env, st, S, i, flow, f);
    }
  }

  lemma WiderSound(S: set<Rule>, flow: Flow, wc: Mask, m: Mask, hi: nat)
    requires hi <= FLOW_U32S
    requires forall f: Flow :: Agree(flow, f, wc, 0, FLOW_U32S) ==> NoMatch(S, f)
    ensures Sound(S, flow, FoldRange(wc, m, 0, hi), None)
  {
    hide Agree, NoMatch, FoldRange;
    var out := FoldRange(wc, m, 0, hi);
    FoldRangeCovers(wc, m, 0, hi);
    forall f: Flow | Agree(flow, f, out, 0, FLOW_U32S) ensures NoMatch(S, f) {
      AgreeCovered(flow, f, out, wc, 0, FLOW_U32S);
    }
  }

  lemma AgreeSelf(f: Flow, wc: Mask)
    ensures Agree(f, f, wc, 0, FLOW_U32S)
  {
  }

  /** find_match_wc.  The result is right, the mask only grows, and the mask
      is sound; the one exception is a hole behind the ports word, where (if
      nothing else looked there) it is not. */
  method FindMatchWc(env: Env, tries: seq<ClsTrie>, ctxs: seq<TrieCtx>, st: Subtable,
                     flow: Flow, wc: Mask, ghost S: set<Rule>)
    returns (res: Option<Rule>, ctxs': seq<TrieCtx>, wc': Mask)
    requires SubOk(env, st, S) && TriesOk(env, tries, ctxs, flow, st, S)
    ensures TriesOk(env, tries, ctxs', flow, st, S)
    ensures Best(S, flow, res)
    ensures Covers(wc', wc, 0, FLOW_U32S)
    ensures SoundButHoles(st, S, flow, wc', res) && (!PortsHole(st, S, flow) ==> Sound(S, flow, wc', res))
    ensures Frugal(env, tries, st, S, flow, wc, wc', res)
    ensures Confined(wc, st, tries) && (NothingLate(st.mask) || (res.None? && st.portsMaskLen > 0)) ==> NothingLate(wc')
    ensures Confined(wc, st, tries) && PortsHole(st, S, flow) ==> NothingLate(wc') && !Sound(S, flow, wc', res)
  {
    hide GroupsOk, IndexOk, MaxOk, PortsOk, HashUpTo, FoldHash, MaskWords, NodesWithHash, Agree, Covers, FoldRange, NoMatch,
         PT.Find, PT.Ok, Bits, PortsValue, PortsWc, PortsMaskLen, PortsHole, Sound, SoundButHoles, FieldMiss, CtxOk, TrieShape, TrieHolds, NothingLate,
         RuleMatches, Frugal, SkipIn, NotYetClear, Within, OnlyPrefix;
    ctxs' := ctxs;
    var basis, start := Zero(), 0;
    var narrowed := false;
    var i := 0;
    NothingYet(env, flow, st.mask);
    FirstStage(env, tries, st, flow, wc);
    while i < |st.indexOfs|
      invariant i <= |st.indexOfs|
      invariant NotYetClear(env, tries, st, flow, wc, i, start)
      invariant start == if i == 0 then 0 else st.indexOfs[i - 1]
      invariant basis == FoldHash(env, flow, st.mask, 0, start, Zero())
      invariant TriesOk(env, tries, ctxs', flow, st, S)
      invariant narrowed ==> NoMatch(S, flow)
    {
      var end := st.indexOfs[i];
      var skip, cs, w, which := CheckTries(env, tries, ctxs', st, start, end, flow, wc, S);
      ctxs' := cs;
      if skip {
        SkipDone(env, st, tries, S, flow, wc, w, which, i, start);
        return None, ctxs', FoldRange(w, st.mask, 0, start);
      }
      NextStage(env, tries, st, flow, wc, i, start, end);
      var hash, basis' := HashRange(env, flow, st.mask, start, end, basis);
      StagedHash(env, flow, st.mask, start, end, basis, hash, basis');
      basis, start := basis', end;
      var nodes := NodesWithHash(st.indices[i], hash);
      if nodes == {} {
        EmptyDone(env, st, tries, S, i, flow, wc);
        return None, ctxs', FoldRange(wc, st.mask, 0, start);
      }
      if |nodes| == 1 && !narrowed {
        var x :| x in nodes;
        OnlyOne(nodes, x);
        SingleCandidate(env, st, S, i, flow, x);
        GroupMasks(env, st, S);
        var ok := MatchesFlow(x.flow, st.mask, flow);
        CandidateResult(S, flow, x, ok);
        if ok {
          FullDone(env, st, tries, S, flow, wc, Some(x));
          return Some(x), ctxs', FoldRange(wc, st.mask, 0, FLOW_U32S);
        }
        narrowed := true;
      }
      i := i + 1;
    }
    var skip, cs, w, which := CheckTries(env, tries, ctxs', st, start, FLOW_U32S, flow, wc, S);
    ctxs' := cs;
    if skip {
      SkipDone(env, st, tries, S, flow, wc, w, which, i, start);
      return None, ctxs', FoldRange(w, st.mask, 0, start);
    }
    LastStage(env, tries, st, flow, wc, start);
    if !narrowed {
      var hash, basis' := HashRange(env, flow, st.mask, start, FLOW_U32S, basis);
      StagedHash(env, flow, st.mask, start, FLOW_U32S, basis, hash, basis');
      res := FindMatch(env, st, flow, hash, S);
    } else {
      res := None;
    }
    if res.None? && st.portsMaskLen > 0 {
      PortsLookupReady(st, S, flow);
      var _, mbits := PT.LookupValue(st.portsTrie, PortsValue(flow, st.mask), 32);
      PortsDone(env, st, tries, S, flow, wc, mbits);
      return None, ctxs', FoldRange(PortsWc(wc, st.mask, mbits), st.mask, 0, TP_PORTS_OFS32);
    }
    FullDone(env, st, tries, S, flow, wc, res);
    return res, ctxs', FoldRange(wc, st.mask, 0, FLOW_U32S);
  }

  lemma FirstStage(env: Env, tries: seq<ClsTrie>, st: Subtable, flow: Flow, wc: Mask)
    requires |tries| == |st.triePlen| && (forall j :: 0 <= j < |tries| ==> TrieShape(tries[j]))
    requires |st.indexOfs| == |st.indices| && forall i :: 0 <= i < |st.indexOfs| ==> st.indexOfs[i] <= FLOW_U32S
    ensures NotYetClear(env, tries, st, flow, wc, 0, 0)
  {
    hide TrieShape;
  }

  lemma NextStage(env: Env, tries: seq<ClsTrie>, st: Subtable, flow: Flow, wc: Mask, n: nat, start: nat, end: nat)
    requires |tries| == |st.triePlen| && (forall j :: 0 <= j < |tries| ==> TrieShape(tries[j]))
    requires n < |st.indexOfs| == |st.indices| && forall i :: 0 <= i < |st.indexOfs| ==> st.indexOfs[i] <= FLOW_U32S
    requires NotYetClear(env, tries, st, flow, wc, n, start) && !SkipIn(env, tries, st, flow, wc, start, end)
    ensures NotYetClear(env, tries, st, flow, wc, n, end)
    ensures NodesWithHash(st.indices[n], HashUpTo(env, flow, st.mask, st.indexOfs[n])) != {} ==> NotYetClear(env, tries, st, flow, wc, n + 1, end)
  {
    hide TrieShape, TrieSkips, NodesWithHash, HashUpTo;
    assert !SkipIn(env, tries, st, flow, wc, 0, end);
  }

  lemma LastStage(env: Env, tries: seq<ClsTrie>, st: Subtable, flow: Flow, wc: Mask, start: nat)
    requires |tries| == |st.triePlen| && (forall j :: 0 <= j < |tries| ==> TrieShape(tries[j]))
    requires |st.indexOfs| == |st.indices| && forall i :: 0 <= i < |st.indexOfs| ==> st.indexOfs[i] <= FLOW_U32S
    requires NotYetClear(env, tries, st, flow, wc, |st.indexOfs|, start) && !SkipIn(env, tries, st, flow, wc, start, FLOW_U32S)
    ensures NotYetClear(env, tries, st, flow, wc, |st.indexOfs|, FLOW_U32S)
  {
    hide TrieShape, TrieSkips, NodesWithHash, HashUpTo;
    assert !SkipIn(env, tries, st, flow, wc, 0, FLOW_U32S);
  }

  lemma OnlyOne(nodes: set<Rule>, x: Rule)
    requires |nodes| == 1 && x in nodes
    ensures nodes == {x}
  {
    assert |nodes - {x}| == 0;
  }

  lemma CandidateResult(S: set<Rule>, flow: Flow, x: Rule, ok: bool)
    requires Best(S, flow, if RuleMatches(x, flow) then Some(x) else None)
    requires ok <==> Matches(x.flow, x.mask, flow)
    ensures ok ==> Best(S, flow, Some(x))
    ensures !ok ==> NoMatch(S, flow)
  {
  }

  lemma SoundMoreIf(st: Subtable, S: set<Rule>, flow: Flow, wc: Mask, res: Option<Rule>)
    ensures Sound(S, flow, wc, res) ==> SoundButHoles(st, S, flow, wc, res)
  {
    hide Sound, SoundButHoles;
    if Sound(S, flow, wc, res) {
      SoundMore(st, S, flow, wc, res);
    }
  }

  lemma LateFold(wc: Mask, m: Mask, hi: nat)
    requires hi <= FLOW_U32S
    ensures NothingLate(wc) && (hi <= TP_PORTS_OFS32 + 1 || NothingLate(m)) ==> NothingLate(FoldRange(wc, m, 0, hi))
  {
  }

  lemma SkipDone(env: Env, st: Subtable, tries: seq<ClsTrie>, S: set<Rule>, flow: Flow, wc: Mask, w: Mask, which: nat, n: nat, start: nat)
    requires GroupsOk(env, st.mask, st.groups, S) && IndicesOk(env, st, S) && Covers(w, wc, 0, FLOW_U32S)
    requires |tries| == |st.triePlen| && (forall j :: 0 <= j < |tries| ==> TrieShape(tries[j]))
    requires n <= |st.indexOfs| && start == (if n == 0 then 0 else st.indexOfs[n - 1]) && NotYetClear(env, tries, st, flow, wc, n, start)
    requires which < |tries| && FieldMiss(S, st.mask, tries[which].field, flow)
    requires Within(w, wc, st.mask) && OnlyPrefix(w, wc, tries[which].field, TrieAnswer(env, tries[which], flow).checkBits)
    requires forall f: Flow :: Agree(flow, f, w, 0, FLOW_U32S) ==> NoMatch(S, f)
    ensures var out := FoldRange(w, st.mask, 0, start);
            && Covers(out, wc, 0, FLOW_U32S) && Best(S, flow, None) && Sound(S, flow, out, None) && SoundButHoles(st, S, flow, out, None)
            && (Confined(wc, st, tries) ==> !PortsHole(st, S, flow) && NothingLate(out)) && Frugal(env, tries, st, S, flow, wc, out, None)
  {
    hide GroupsOk, Agree, NoMatch, FoldRange, PortsHole, FieldMiss, Sound, SoundButHoles, Within, OnlyPrefix, NotYetClear, Frugal, IndexOk, TrieAnswer;
    SoundMoreIf(st, S, flow, FoldRange(w, st.mask, 0, start), None);
    LateFold(w, st.mask, start);
    WiderSound(S, flow, w, st.mask, start);
    FoldRangeCovers(w, st.mask, 0, start);
    CoversTrans(FoldRange(w, st.mask, 0, start), w, wc, 0, FLOW_U32S);
    AgreeSelf(flow, w);
    SkipFrugal(env, st, tries, S, flow, wc, w, which, n, start);
    if Confined(wc, st, tries) {
      FieldMissNoHole(st, S, tries[which].field, flow);
      LatePrefix(w, wc, tries[which].field, TrieAnswer(env, tries[which], flow).checkBits);
    }
  }

  lemma LatePrefix(w: Mask, wc: Mask, fd: Field, n: nat)
    requires OnlyPrefix(w, wc, fd, n) && NothingLate(wc) && fd.ofs + fd.words <= TP_PORTS_OFS32 + 1
    ensures NothingLate(w)
  {
    forall i | TP_PORTS_OFS32 < i < FLOW_U32S ensures w[i] == Zero() {
      forall k | 0 <= k < 32 ensures !w[i][k] {
        assert wc[i] == Zero();
      }
    }
  }

  lemma SkipFrugal(env: Env, st: Subtable, tries: seq<ClsTrie>, S: set<Rule>, flow: Flow, wc: Mask, w: Mask, which: nat, n: nat, start: nat)
    requires IndicesOk(env, st, S) && |tries| == |st.triePlen| && (forall j :: 0 <= j < |tries| ==> TrieShape(tries[j]))
    requires n <= |st.indexOfs| && start == (if n == 0 then 0 else st.indexOfs[n - 1]) && NotYetClear(env, tries, st, flow, wc, n, start)
    requires which < |tries| && Within(w, wc, st.mask) && OnlyPrefix(w, wc, tries[which].field, TrieAnswer(env, tries[which], flow).checkBits)
    ensures Frugal(env, tries, st, S, flow, wc, FoldRange(w, st.mask, 0, start), None)
  {
    hide FoldRange, Within, NotYetClear, ClearAt, IndexOk, TrieShape, TrieAnswer, PT.Find, Bits;
    var out := FoldRange(w, st.mask, 0, start);
    FoldWithin(w, wc, st.mask, start);
    forall b | ClearAt(env, tries, st, S, flow, wc, b) ensures QuietFrom(env, tries, flow, wc, out, b) {
      ClearLater(env, tries, st, S, flow, wc, n, start, b);
    }
  }

  lemma EmptyDone(env: Env, st: Subtable, tries: seq<ClsTrie>, S: set<Rule>, i: nat, flow: Flow, wc: Mask)
    requires GroupsOk(env, st.mask, st.groups, S) && IndicesOk(env, st, S) && i < |st.indices|
    requires |tries| == |st.triePlen| && (forall j :: 0 <= j < |tries| ==> TrieShape(tries[j])) && NotYetClear(env, tries, st, flow, wc, i, st.indexOfs[i])
    requires NodesWithHash(st.indices[i], HashUpTo(env, flow, st.mask, st.indexOfs[i])) == {}
    ensures var out := FoldRange(wc, st.mask, 0, st.indexOfs[i]);
            && Covers(out, wc, 0, FLOW_U32S) && Best(S, flow, None) && Sound(S, flow, out, None) && SoundButHoles(st, S, flow, out, None)
            && (Confined(wc, st, tries) ==> !PortsHole(st, S, flow) && NothingLate(out)) && Frugal(env, tries, st, S, flow, wc, out, None)
  {
    hide GroupsOk, IndexOk, Agree, NoMatch, FoldRange, PortsHole, NodesWithHash, HashUpTo, SoundButHoles, NotYetClear, Frugal, TrieShape;
    SoundMoreIf(st, S, flow, FoldRange(wc, st.mask, 0, st.indexOfs[i]), None);
    LateFold(wc, st.mask, st.indexOfs[i]);
    EmptyIndexSound(env, st, S, i, flow, wc);
    FoldRangeCovers(wc, st.mask, 0, st.indexOfs[i]);
    AgreeSelf(flow, FoldRange(wc, st.mask, 0, st.indexOfs[i]));
    EmptyFrugal(env, st, tries, S, i, flow, wc);
    if Confined(wc, st, tries) {
      EmptyIndexNoHole(env, st, S, i, flow);
    }
  }

  lemma EmptyFrugal(env: Env, st: Subtable, tries: seq<ClsTrie>, S: set<Rule>, i: nat, flow: Flow, wc: Mask)
    requires IndicesOk(env, st, S) && i < |st.indices|
    requires |tries| == |st.triePlen| && (forall j :: 0 <= j < |tries| ==> TrieShape(tries[j])) && NotYetClear(env, tries, st, flow, wc, i, st.indexOfs[i])
    ensures Frugal(env, tries, st, S, flow, wc, FoldRange(wc, st.mask, 0, st.indexOfs[i]), None)
  {
    hide FoldRange, Within, NotYetClear, ClearAt, IndexOk, TrieShape, PT.Find, Bits;
    var out := FoldRange(wc, st.mask, 0, st.indexOfs[i]);
    NothingAdded(wc, st.mask);
    FoldWithin(wc, wc, st.mask, st.indexOfs[i]);
    forall b | ClearAt(env, tries, st, S, flow, wc, b) ensures QuietFrom(env, tries, flow, wc, out, b) {
      ClearFrom(env, tries, st, S, flow, wc, i, b);
    }
  }

  /** No trie of the stage tells, so it becomes clear at its end or later. */
  lemma ClearFrom(env: Env, tries: seq<ClsTrie>, st: Subtable, S: set<Rule>, flow: Flow, wc: Mask, i: nat, b: nat)
    requires IndicesOk(env, st, S) && |tries| == |st.triePlen| && (forall j :: 0 <= j < |tries| ==> TrieShape(tries[j]))
    requires i < |st.indexOfs| && NotYetClear(env, tries, st, flow, wc, i, st.indexOfs[i]) && ClearAt(env, tries, st, S, flow, wc, b)
    ensures b >= st.indexOfs[i]
  {
    hide PT.Ok, TrieSkips, HashUpTo, IndexOk, NodesWithHash;
    if b in st.indexOfs && b <= FLOW_U32S && forall r :: r in S ==> HashUpTo(env, r.flow, st.mask, b) != HashUpTo(env, flow, st.mask, b) {
      NotClearByHash(env, st, S, flow, i, b);
    } else {
      var j :| 0 <= j < |tries| && StageStart(st, tries[j].field.ofs, b) && TrieSkips(env, tries[j], st.triePlen[j], flow, wc);
      assert st.indexOfs[i] in st.indexOfs;
    }
  }

  lemma FullDone(env: Env, st: Subtable, tries: seq<ClsTrie>, S: set<Rule>, flow: Flow, wc: Mask, res: Option<Rule>)
    requires GroupsOk(env, st.mask, st.groups, S) && IndicesOk(env, st, S) && Best(S, flow, res)
    requires |tries| == |st.triePlen| && (forall j :: 0 <= j < |tries| ==> TrieShape(tries[j]))
    requires res.Some? || (st.portsMaskLen == 0 && NotYetClear(env, tries, st, flow, wc, |st.indexOfs|, FLOW_U32S))
    ensures var out := FoldRange(wc, st.mask, 0, FLOW_U32S);
            && Covers(out, wc, 0, FLOW_U32S) && Sound(S, flow, out, res) && !PortsHole(st, S, flow)
            && SoundButHoles(st, S, flow, out, res) && (NothingLate(wc) && NothingLate(st.mask) ==> NothingLate(out))
            && Frugal(env, tries, st, S, flow, wc, out, res)
  {
    hide GroupsOk, FoldRange, Sound, SoundButHoles, IndexOk, NotYetClear, ClearAt, Within, TrieShape;
    SoundMoreIf(st, S, flow, FoldRange(wc, st.mask, 0, FLOW_U32S), res);
    LateFold(wc, st.mask, FLOW_U32S);
    FullFoldSound(env, st, S, flow, wc, res);
    FoldRangeCovers(wc, st.mask, 0, FLOW_U32S);
    NothingAdded(wc, st.mask);
    FoldWithin(wc, wc, st.mask, FLOW_U32S);
    if res.None? {
      NeverClear(env, tries, st, S, flow, wc);
    }
  }

  lemma NeverClear(env: Env, tries: seq<ClsTrie>, st: Subtable, S: set<Rule>, flow: Flow, wc: Mask)
    requires IndicesOk(env, st, S) && |tries| == |st.triePlen| && (forall j :: 0 <= j < |tries| ==> TrieShape(tries[j]))
    requires NotYetClear(env, tries, st, flow, wc, |st.indexOfs|, FLOW_U32S)
    ensures forall b :: !ClearAt(env, tries, st, S, flow, wc, b)
  {
    hide ClearAt, NotYetClear, TrieShape, IndexOk;
    forall b | ClearAt(env, tries, st, S, flow, wc, b) ensures false {
      ClearLater(env, tries, st, S, flow, wc, |st.indexOfs|, FLOW_U32S, b);
    }
  }

  lemma PortsLookupReady(st: Subtable, S: set<Rule>, flow: Flow)
    requires PortsOk(st.portsTrie, st.portsMaskLen, S)
    ensures PT.Ok(st.portsTrie, true, 32) && |Bits(PortsValue(flow, st.mask))| == 32
    ensures PT.Find(st.portsTrie, Bits(PortsValue(flow, st.mask)), true).checkBits <= 32
  {
    PT.FindSpec(st.portsTrie, true, Bits(PortsValue(flow, st.mask)), true);
  }

  lemma PortsDone(env: Env, st: Subtable, tries: seq<ClsTrie>, S: set<Rule>, flow: Flow, wc: Mask, mbits: nat)
    requires SubOk(env, st, S) && st.portsMaskLen > 0 && NoMatch(S, flow) && mbits <= 32
    requires |tries| == |st.triePlen| && (forall j :: 0 <= j < |tries| ==> TrieShape(tries[j])) && NotYetClear(env, tries, st, flow, wc, |st.indexOfs|, FLOW_U32S)
    requires mbits == PT.Find(st.portsTrie, Bits(PortsValue(flow, st.mask)), true).checkBits
    ensures var out := FoldRange(PortsWc(wc, st.mask, mbits), st.mask, 0, TP_PORTS_OFS32);
            && Covers(out, wc, 0, FLOW_U32S) && Best(S, flow, None)
            && SoundButHoles(st, S, flow, out, None) && (!PortsHole(st, S, flow) ==> Sound(S, flow, out, None))
            && (NothingLate(wc) ==> NothingLate(out) && (PortsHole(st, S, flow) ==> !Sound(S, flow, out, None)))
            && Frugal(env, tries, st, S, flow, wc, out, None)
  {
    hide GroupsOk, IndexOk, MaxOk, PortsOk, Agree, NoMatch, PortsHole, PT.Find, Bits, PortsValue, PortsMaskLen, OnlyHoleRules, Sound, NotYetClear, Frugal, TrieShape;
    PortsFrugal(env, tries, st, S, flow, wc, mbits);
    var mid := PortsWc(wc, st.mask, mbits);
    var out := FoldRange(mid, st.mask, 0, TP_PORTS_OFS32);
    PortsWcCovers(wc, st.mask, mbits);
    FoldRangeCovers(mid, st.mask, 0, TP_PORTS_OFS32);
    CoversTrans(out, mid, wc, 0, FLOW_U32S);
    forall f: Flow | Agree(flow, f, out, 0, FLOW_U32S) ensures OnlyHoleRules(st, S, flow, f) {
      PortsBranchHoles(env, st, S, flow, wc, out, f);
    }
    if !PortsHole(st, S, flow) {
      NoHoleSound(st, S, flow, out);
    } else if NothingLate(wc) {
      HoleUnsound(env, st, S, flow, out);
    }
  }

  /** The ports trie of a subtable that has rules always yields at least one
      bit, so the shift that builds the mask is by less than 32. */
  lemma PortsShiftDefined(env: Env, st: Subtable, S: set<Rule>, flow: Flow)
    requires SubOk(env, st, S) && st.portsMaskLen > 0 && S != {}
    ensures 1 <= PT.Find(st.portsTrie, Bits(PortsValue(flow, st.mask)), true).checkBits <= 32
  {
    hide GroupsOk, IndexOk, MaxOk, PT.Find, Bits;
    var r :| r in S;
    assert r in WithPorts(S, st.portsMaskLen, PortsBits(r, st.portsMaskLen));
    PortsLookupReady(st, S, flow);
    PT.FindSpec(st.portsTrie, true, Bits(PortsValue(flow, st.mask)), true);
  }

  lemma PortsFrugal(env: Env, tries: seq<ClsTrie>, st: Subtable, S: set<Rule>, flow: Flow, wc: Mask, mbits: nat)
    requires IndicesOk(env, st, S) && |tries| == |st.triePlen| && (forall j :: 0 <= j < |tries| ==> TrieShape(tries[j]))
    requires NotYetClear(env, tries, st, flow, wc, |st.indexOfs|, FLOW_U32S)
    requires mbits <= 32 && mbits == PT.Find(st.portsTrie, Bits(PortsValue(flow, st.mask)), true).checkBits
    ensures Frugal(env, tries, st, S, flow, wc, FoldRange(PortsWc(wc, st.mask, mbits), st.mask, 0, TP_PORTS_OFS32), None)
  {
    hide NotYetClear, ClearAt, TrieShape, IndexOk, PT.Find, Bits, PortsValue, FoldRange, PortsWc;
    PortsWcWithin(wc, st.mask, mbits);
    FoldWithin(PortsWc(wc, st.mask, mbits), wc, st.mask, TP_PORTS_OFS32);
    NeverClear(env, tries, st, S, flow, wc);
  }

  lemma PortsWcWithin(wc: Mask, mask: Mask, mbits: nat)
    requires mbits <= 32
    ensures Within(PortsWc(wc, mask, mbits), wc, mask)
    ensures forall k :: 0 <= k < 32 && PortsWc(wc, mask, mbits)[TP_PORTS_OFS32][k] ==> wc[TP_PORTS_OFS32][k] || k < mbits
  {
    HighMaskBits(mbits);
  }

  lemma PortsWcCovers(wc: Mask, mask: Mask, mbits: nat)
    requires mbits <= 32
    ensures Covers(PortsWc(wc, mask, mbits), wc, 0, FLOW_U32S)
  {
  }
}
