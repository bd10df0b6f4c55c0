/** The classifier object: its fields are updated in place by replacing and
    removing rules and by choosing the fields whose prefixes are tracked. */
module OpenFlowTable {
  import opened Options
  import opened Words
  import opened Flows
  import opened Tags
  import opened Subtables
  import opened SubtableLookup
  import opened Classifier
  import opened ClassifierLookup
  import PC = PriorityCache
  import PT = PrefixTrie

  const CLS_MAX_INDICES: nat := 3
  const CLS_MAX_TRIES: nat := 3

  /** A match field: offset of its first word, negative if it does not start
      on one, and its size in bits. */
  datatype MfField = MfField(id: nat, be32ofs: int, nBits: nat)

  predicate MfFieldOk(fd: MfField) {
    fd.nBits > 0 && (fd.be32ofs >= 0 ==> 32 * fd.be32ofs + fd.nBits <= 32 * FLOW_U32S)
  }

  predicate Trackable(fd: MfField) {
    fd.be32ofs >= 0 && fd.nBits % 32 == 0
  }

  function AsField(fd: MfField): Field
    requires Trackable(fd)
  {
    Field(fd.id, fd.be32ofs, fd.nBits / 32)
  }

  class Table {
    const env: Env
    const segments: seq<nat>
    const cache: PC.SubtableCache
    var subtables: map<Mask, Subtable>
    var partitions: map<seq<Word>, Tracker>
    var tries: seq<ClsTrie>
    var nRules: nat
    ghost var rules: set<Rule>

    ghost function Value(): Cls
      requires cache.Valid()
      reads this, cache, cache.subtables
    {
      Cls(segments, subtables, cache.Contents(), partitions, tries, nRules)
    }

    /** The table holds exactly 'rules'. */
    ghost predicate Valid()
      reads this, cache, cache.subtables
    {
      cache.Valid() && Inv(env, Value(), rules)
    }

    /** classifier_init: at most three boundaries, each inside the flow. */
    constructor (env: Env, flowSegments: seq<nat>)
      requires forall i, j :: 0 <= i < j < |flowSegments| ==> flowSegments[i] < flowSegments[j]
      requires forall i :: 0 <= i < |flowSegments| ==> flowSegments[i] > 0
      ensures Valid() && rules == {} && fresh(cache) && fresh(cache.subtables)
      ensures segments <= flowSegments && |segments| <= CLS_MAX_INDICES && this.env == env
      ensures segments == flowSegments || |segments| == CLS_MAX_INDICES || flowSegments[|segments|] >= FLOW_U32S
    {
      var n := 0;
      while n < |flowSegments| && n < CLS_MAX_INDICES && flowSegments[n] < FLOW_U32S
        invariant n <= |flowSegments| && n <= CLS_MAX_INDICES
        invariant forall i :: 0 <= i < n ==> flowSegments[i] < FLOW_U32S
      {
        n := n + 1;
      }
      this.env := env;
      segments := flowSegments[..n];
      cache := new PC.SubtableCache();
      subtables, partitions, tries, nRules := map[], map[], [], 0;
      rules := {};
      new;
      InitOk(env, segments);
    }

    /** classifier_replace: returns the identical rule it took the place of. */
    method Replace(rule: Rule) returns (displaced: Option<Rule>)
      requires Valid() && Canonical(rule.flow, rule.mask)
      modifies this, cache, cache.subtables
      ensures Valid() && rules == Replaced(old(rules), rule) && nRules == |rules|
      ensures displaced.Some? ==> displaced.value in old(rules) && SameKey(displaced.value, rule)
      ensures displaced.None? ==> forall r :: r in old(rules) ==> !SameKey(r, rule)
      ensures cache.subtables == old(cache.subtables) || fresh(cache.subtables)
    {
      hide Inv, Replaced, SameKey, Canonical, TagOf, PC.Raised, PC.IndexOf, PC.Sorted, PC.Distinct;
      ghost var c, R := Value(), rules;
      var up := ReplaceValues(env, segments, subtables, partitions, tries, nRules, rule, c, R);
      if up.isNew {
        cache.PushBack(PC.Entry(rule.mask, TagOf(env, rule.mask), 0));
      }
      if up.move {
        cache.Raise(rule.mask, rule.priority);
      }
      subtables, partitions, tries, nRules := up.subtables, up.partitions, up.tries, up.nRules;
      rules := Replaced(R, rule);
      displaced := up.displaced;
      RuleCount(env, Value(), rules);
    }

    /** classifier_remove. */
    method Remove(rule: Rule)
      requires Valid() && rule in rules
      modifies this, cache, cache.subtables
      ensures Valid() && rules == old(rules) - {rule} && nRules == |rules|
      ensures cache.subtables == old(cache.subtables)
    {
      hide Inv, PC.Lowered, PC.Dropped, PC.IndexOf, PC.Sorted, PC.Distinct;
      ghost var c, R := Value(), rules;
      var up := RemoveValues(env, segments, subtables, partitions, tries, nRules, rule, c, R);
      if up.isNew {
        var k := FindEntry(rule.mask);
        cache.RemoveAt(k);
      }
      if up.move {
        cache.Lower(rule.mask, up.subtables[rule.mask].maxPriority);
      }
      subtables, partitions, tries, nRules := up.subtables, up.partitions, up.tries, up.nRules;
      rules := R - {rule};
      RuleCount(env, Value(), rules);
    }

    /** The search of destroy_subtable for its entry. */
    method FindEntry(m: Mask) returns (k: nat)
      requires cache.Valid() && PC.IndexOf(cache.Contents(), m) < cache.size
      ensures k == PC.IndexOf(cache.Contents(), m)
    {
      ghost var s := cache.Contents();
      k := 0;
      while cache.subtables[k].mask != m
        invariant k <= PC.IndexOf(s, m)
        decreases cache.size - k
      {
        assert s[k].mask != m;
        k := k + 1;
      }
      assert s[k].mask == m;
    }

    /** classifier_lookup on the table; 'wc' absent is the null pointer. */
    method Lookup(flow: Flow, useWc: bool, wc: Mask) returns (best: Option<Rule>, wc': Mask)
      requires Valid()
      ensures Best(rules, flow, best)
      ensures Covers(wc', wc, 0, FLOW_U32S) && (!useWc ==> wc' == wc)
      ensures FromSearched(env, Value(), rules, flow, wc, wc', |Value().order|)
      ensures best == Scan(Value().order, rules, flow, |Value().order|)
      ensures useWc && Harmless(Value(), rules, flow, best) ==> Decided(Value(), rules, flow, wc', |Value().order|, best)
      ensures useWc && NothingLate(wc) && LateBehindPorts(Value()) && NoMatch(rules, flow) ==>
                (Decided(Value(), rules, flow, wc', |Value().order|, best) <==> NoHoles(Value(), rules, flow))
    {
      hide Inv, Best, Covers, FromSearched, NoHoles, Harmless, NothingLate, LateBehindPorts, NoMatch, Decided, Scan;
      var c := Cls(segments, subtables, cache.subtables[..cache.size], partitions, tries, nRules);
      assert c == Value();
      best, wc' := ClassifierLookup.Lookup(env, c, flow, useWc, wc, rules);
    }

    /** classifier_set_prefix_fields: skip untrackable and repeated fields,
        keep a trie that already serves the same field at the same place,
        build the others from the rules, drop the rest. */
    method SetPrefixFields(fields: seq<MfField>)
      requires Valid() && forall fd :: fd in fields ==> MfFieldOk(fd)
      modifies this
      ensures Valid() && rules == old(rules)
      ensures |tries| <= CLS_MAX_TRIES
      ensures forall t :: t in tries ==> exists fd :: fd in fields && Trackable(fd) && t.field == AsField(fd)
      ensures forall i, j :: 0 <= i < j < |tries| ==> tries[i].field.id != tries[j].field.id
      ensures FieldsOf(tries) == Chosen(fields)
    {
      hide Inv, Refielded;
      var c := Cls(segments, subtables, cache.subtables[..cache.size], partitions, tries, nRules);
      assert c == Value();
      var ts := ChooseTries(env, c, fields, rules);
      var subs := Replen(c.subtables, ts);
      ChosenRefielded(c, ts, subs, rules);
      RefieldedOk(env, c, rules, FieldsOf(ts), c.(tries := ts, subtables := subs));
      tries, subtables := ts, subs;
    }
  }

  /** The values classifier_replace and classifier_remove compute; 'isNew'
      and 'move' say what happens to the priority order. */
  datatype Update = Update(
    subtables: map<Mask, Subtable>, partitions: map<seq<Word>, Tracker>, tries: seq<ClsTrie>, nRules: nat,
    displaced: Option<Rule>, isNew: bool, move: bool)

  method ReplaceValues(env: Env, segments: seq<nat>, subtables: map<Mask, Subtable>, partitions: map<seq<Word>, Tracker>,
                       tries: seq<ClsTrie>, nRules: nat, rule: Rule, ghost c: Cls, ghost R: set<Rule>) returns (up: Update)
    requires Inv(env, c, R) && Canonical(rule.flow, rule.mask)
    requires c == Cls(segments, subtables, c.order, partitions, tries, nRules)
    ensures var order := if up.isNew then c.order + [PC.Entry(rule.mask, TagOf(env, rule.mask), 0)] else c.order;
            && (up.move ==> PC.Sorted(order) && PC.Distinct(order) && PC.IndexOf(order, rule.mask) < |order|
                            && order[PC.IndexOf(order, rule.mask)].maxPriority < rule.priority)
            && Inv(env, Cls(segments, up.subtables,
                            if up.move then PC.Raised(order, PC.IndexOf(order, rule.mask), rule.priority) else order,
                            up.partitions, up.tries, up.nRules), Replaced(R, rule))
    ensures up.displaced.Some? ==> up.displaced.value in R && SameKey(up.displaced.value, rule)
    ensures up.displaced.None? ==> forall r :: r in R ==> !SameKey(r, rule)
  {
    hide Inv, Classifier.Replace, Replaced, AddRule, SameKey, Canonical, NewSubtable, OldList, Displaced, TagOf, PC.Raised, PC.IndexOf,
         PC.Sorted, PC.Distinct, PartitionsAdd, PartitionsOk, TrieAdd, SubtableShape, Shape, DisplacedBy;
    ReplaceOk(env, c, R, rule);
    ReplaceParts(env, c, R, rule);
    ShapeFields(c);
    DisplacedByIs(env, c, rule);
    var m := rule.mask;
    var st := if m in subtables then subtables[m] else NewSubtable(env, segments, tries, m);
    var st1, displaced := InsertRule(env, st, rule);
    var ts := AddToTries(tries, st.triePlen, rule);
    ReplaceIs(env, c, R, rule, ts);
    if displaced.Some? {
      DisplacedOld(env, c, R, rule);
      up := Update(subtables[m := st1], partitions, tries, nRules, displaced, false, false);
    } else {
      var parts := CreatePartition(env, partitions, rule, R);
      up := Update(subtables[m := st1], parts, ts, nRules + 1, displaced, m !in subtables, rule.priority > st.maxPriority);
    }
  }

  lemma ShapeFields(c: Cls)
    requires Shape(c)
    ensures SegmentsOk(c.segments) && forall t :: t in c.tries ==> FieldOk(t.field)
    ensures forall v :: v in c.partitions ==> |c.partitions[v].counts| == N_TAG_BITS
  {
  }

  lemma DisplacedOld(env: Env, c: Cls, R: set<Rule>, rule: Rule)
    requires Inv(env, c, R) && Shape(c) && DisplacedBy(env, c, rule).Some?
    requires DisplacedBy(env, c, rule).value in R && SameKey(DisplacedBy(env, c, rule).value, rule)
    ensures rule.mask in c.subtables
  {
    hide DisplacedBy, PC.OrderOk, PartitionsOk, TrieOk, Shape;
    OldSubtable(env, c, R, rule);
  }

  method RemoveValues(env: Env, segments: seq<nat>, subtables: map<Mask, Subtable>, partitions: map<seq<Word>, Tracker>,
                      tries: seq<ClsTrie>, nRules: nat, rule: Rule, ghost c: Cls, ghost R: set<Rule>) returns (up: Update)
    requires Inv(env, c, R) && rule in R
    requires c == Cls(segments, subtables, c.order, partitions, tries, nRules)
    ensures var k := PC.IndexOf(c.order, rule.mask);
            && k < |c.order| && !(up.isNew && up.move)
            && (up.move ==> PC.Sorted(c.order) && PC.Distinct(c.order) && rule.mask in up.subtables
                            && up.subtables[rule.mask].maxPriority < c.order[k].maxPriority)
            && Inv(env, Cls(segments, up.subtables,
                            if up.isNew then PC.Dropped(c.order, k)
                            else if up.move then PC.Lowered(c.order, k, up.subtables[rule.mask].maxPriority) else c.order,
                            up.partitions, up.tries, up.nRules), R - {rule})
  {
    hide Inv, Classifier.Remove, RemoveRule, TagOf, PC.Lowered, PC.Dropped, PC.IndexOf, PC.Sorted, PC.Distinct, PartitionsRemove, TrieRemove,
         SubtableShape, Shape, ExactMetadata, Metadata, SubOk, RulesWith;
    RemoveOk(env, c, R, rule);
    RemoveParts(env, c, R, rule);
    ShapeFields(c);
    var m := rule.mask;
    var st := subtables[m];
    var ts := RemoveFromTries(tries, st.triePlen, rule);
    var parts := DropFromPartition(env, partitions, rule);
    RemoveIs(env, c, rule, ts);
    if st.nRules == 1 {
      up := Update(subtables - {m}, parts, ts, nRules - 1, None, true, false);
    } else {
      var st1 := DeleteRule(env, st, rule, RulesWith(R, m));
      up := Update(subtables[m := st1], parts, ts, nRules - 1, None, false, rule.priority == st.maxPriority && st.maxCount == 1);
    }
  }

  function FieldsOf(ts: seq<ClsTrie>): seq<Field> {
    seq(|ts|, j requires 0 <= j < |ts| => ts[j].field)
  }

  function Replen(subtables: map<Mask, Subtable>, ts: seq<ClsTrie>): map<Mask, Subtable> {
    map m | m in subtables ::
      subtables[m].(triePlen := seq(|ts|, j requires 0 <= j < |ts| => PrefixLenOr0(m, ts[j].field)))
  }

  /** The first trackable one of its identity. */
  predicate FirstSuch(fields: seq<MfField>, k: nat)
    requires k < |fields|
  {
    Trackable(fields[k]) && forall x :: 0 <= x < k && Trackable(fields[x]) ==> fields[x].id != fields[k].id
  }

  /** The fields that get a trie: trackable, of different identity, three at
      most. */
  function Chosen(fields: seq<MfField>): (fs: seq<Field>)
    ensures |fs| <= CLS_MAX_TRIES
  {
    if fields == [] then [] else
    var n := |fields| - 1;
    var fs, fd := Chosen(fields[..n]), fields[n];
    if |fs| < CLS_MAX_TRIES && Trackable(fd) && forall f :: f in fs ==> f.id != fd.id then fs + [AsField(fd)] else fs
  }

  ghost predicate Serves(fields: seq<MfField>, f: Field, n: nat)
    requires n <= |fields|
  {
    exists k :: 0 <= k < n && FirstSuch(fields, k) && f == AsField(fields[k])
  }

  /** Each serves the first trackable field of its identity, and one that is
      asked for and not served comes after three that are. */
  lemma {:induction false} ChosenServed(fields: seq<MfField>, n: nat)
    requires n <= |fields|
    ensures var fs := Chosen(fields[..n]);
            && (forall f :: f in fs ==> Serves(fields, f, n))
            && (forall k :: 0 <= k < n && Trackable(fields[k]) ==> Known(fs, fields[k].id) || Beaten(fields, fs, k))
            && (forall i, j :: 0 <= i < j < |fs| ==> fs[i].id != fs[j].id)
    decreases n
  {
    hide FirstSuch, Serves;
    if n > 0 {
      ChosenServed(fields, n - 1);
      assert fields[..n][..n - 1] == fields[..n - 1];
      var fs, fd := Chosen(fields[..n - 1]), fields[n - 1];
      forall f | f in fs ensures Serves(fields, f, n) {
        ServesLater(fields, f, n - 1);
      }
      if |fs| < CLS_MAX_TRIES && Trackable(fd) && !Known(fs, fd.id) {
        FirstOfItsKind(fields, fs, n - 1);
        var more := fs + [AsField(fd)];
        assert more[|fs|] == AsField(fd);
        assert forall id :: Known(fs, id) ==> Known(more, id);
        assert Known(more, fd.id);
      } else {
        assert |fs| == CLS_MAX_TRIES ==> Beaten(fields, fs, n - 1);
      }
    }
  }

  ghost predicate Known(fs: seq<Field>, id: nat) {
    exists f :: f in fs && f.id == id
  }

  /** Three fields asked for earlier are served. */
  ghost predicate Beaten(fields: seq<MfField>, fs: seq<Field>, k: nat)
    requires k <= |fields|
  {
    |fs| == CLS_MAX_TRIES && forall f :: f in fs ==> Serves(fields, f, k)
  }

  lemma ServesLater(fields: seq<MfField>, f: Field, n: nat)
    requires n < |fields| && Serves(fields, f, n)
    ensures Serves(fields, f, n + 1)
  {
    hide FirstSuch;
  }

  lemma FirstOfItsKind(fields: seq<MfField>, fs: seq<Field>, n: nat)
    requires n < |fields| && Trackable(fields[n]) && |fs| < CLS_MAX_TRIES && (forall f :: f in fs ==> f.id != fields[n].id)
    requires forall k :: 0 <= k < n && Trackable(fields[k]) ==> Known(fs, fields[k].id)
    ensures Serves(fields, AsField(fields[n]), n + 1)
  {
    assert FirstSuch(fields, n);
  }

  /** Once three are chosen nothing more is. */
  lemma {:induction false} ChosenFull(fields: seq<MfField>, n: nat)
    requires n <= |fields| && |Chosen(fields[..n])| == CLS_MAX_TRIES
    ensures Chosen(fields) == Chosen(fields[..n])
    decreases |fields|
  {
    if n == |fields| {
      assert fields[..n] == fields;
    } else {
      var k := |fields| - 1;
      assert fields[..k][..n] == fields[..n];
      ChosenFull(fields[..k], n);
    }
  }

  /** The loop over the requested fields in classifier_set_prefix_fields. */
  method ChooseTries(env: Env, c: Cls, fields: seq<MfField>, ghost R: set<Rule>) returns (ts: seq<ClsTrie>)
    requires Inv(env, c, R) && forall fd :: fd in fields ==> MfFieldOk(fd)
    ensures |ts| <= CLS_MAX_TRIES && forall t :: t in ts ==> TrieOk(t, R)
    ensures forall t :: t in ts ==> exists fd :: fd in fields && Trackable(fd) && t.field == AsField(fd)
    ensures forall i, j :: 0 <= i < j < |ts| ==> ts[i].field.id != ts[j].field.id
    ensures FieldsOf(ts) == Chosen(fields)
  {
    hide Inv, TrieOk, FieldsOf, Chosen, Trackable;
    ts := [];
    var i := 0;
    InvTriesOk(env, c, R);
    NoneChosen();
    while i < |fields| && |ts| < CLS_MAX_TRIES
      invariant i <= |fields| && |ts| <= CLS_MAX_TRIES
      invariant forall t :: t in ts ==> TrieOk(t, R)
      invariant FieldsOf(ts) == Chosen(fields[..i])
    {
      var fd := fields[i];
      ChosenNext(fields, i, ts);
      if Trackable(fd) && forall t :: t in ts ==> t.field.id != fd.id {
        var t := TrieFor(env, c, fd, |ts|, R);
        ts := ts + [t];
      }
      i := i + 1;
    }
    assert fields[..|fields|] == fields;
    if |ts| == CLS_MAX_TRIES {
      FieldsSize(ts);
      ChosenFull(fields, i);
    }
    ChosenTries(fields, ts);
  }

  /** A trie that is there already, or a new one. */
  method TrieFor(env: Env, c: Cls, fd: MfField, k: nat, ghost R: set<Rule>) returns (t: ClsTrie)
    requires Inv(env, c, R) && MfFieldOk(fd) && Trackable(fd)
    ensures TrieOk(t, R) && t.field == AsField(fd)
  {
    hide Inv, TrieOk;
    InvTriesOk(env, c, R);
    if k < |c.tries| && c.tries[k].field == AsField(fd) {
      t := c.tries[k];
    } else {
      TrackableOk(fd);
      t := BuildTrie(env, c, AsField(fd), R);
    }
  }

  lemma NoneChosen()
    ensures FieldsOf([]) == [] && Chosen([]) == []
  {
  }

  lemma FieldsSize(ts: seq<ClsTrie>)
    ensures |FieldsOf(ts)| == |ts|
  {
  }

  lemma ChosenNext(fields: seq<MfField>, i: nat, ts: seq<ClsTrie>)
    requires i < |fields| && |ts| < CLS_MAX_TRIES && FieldsOf(ts) == Chosen(fields[..i])
    ensures var fd := fields[i];
            if Trackable(fd) && forall t :: t in ts ==> t.field.id != fd.id
            then forall t: ClsTrie :: t.field == AsField(fd) ==> FieldsOf(ts + [t]) == Chosen(fields[..i + 1])
            else FieldsOf(ts) == Chosen(fields[..i + 1])
  {
    var fs, fd := FieldsOf(ts), fields[i];
    assert fields[..i + 1][..i] == fields[..i];
    assert forall k :: 0 <= k < |ts| ==> fs[k] == ts[k].field && ts[k] in ts && fs[k] in fs;
    forall t: ClsTrie | Trackable(fd) && t.field == AsField(fd) ensures FieldsOf(ts + [t]) == fs + [AsField(fd)] {
    }
  }

  /** What was chosen, said of the tries. */
  lemma ChosenTries(fields: seq<MfField>, ts: seq<ClsTrie>)
    requires FieldsOf(ts) == Chosen(fields)
    ensures forall t :: t in ts ==> exists fd :: fd in fields && Trackable(fd) && t.field == AsField(fd)
    ensures forall i, j :: 0 <= i < j < |ts| ==> ts[i].field.id != ts[j].field.id
  {
    hide Chosen, Trackable;
    assert fields[..|fields|] == fields;
    ChosenServed(fields, |fields|);
    var fs := FieldsOf(ts);
    forall t | t in ts ensures exists fd :: fd in fields && Trackable(fd) && t.field == AsField(fd) {
      var k :| 0 <= k < |ts| && ts[k] == t;
      assert fs[k] in fs && Serves(fields, fs[k], |fields|);
      var x :| 0 <= x < |fields| && FirstSuch(fields, x) && fs[k] == AsField(fields[x]);
      assert fields[x] in fields;
    }
    forall i, j | 0 <= i < j < |ts| ensures ts[i].field.id != ts[j].field.id {
      assert fs[i].id != fs[j].id;
    }
  }

  lemma TrackableOk(fd: MfField)
    requires MfFieldOk(fd) && Trackable(fd)
    ensures FieldOk(AsField(fd))
  {
    assert fd.nBits == 32 * (fd.nBits / 32);
  }

  lemma ChosenRefielded(c: Cls, ts: seq<ClsTrie>, subs: map<Mask, Subtable>, R: set<Rule>)
    requires (forall t :: t in ts ==> TrieOk(t, R)) && subs == Replen(c.subtables, ts)
    ensures Refielded(c, FieldsOf(ts), c.(tries := ts, subtables := subs), R)
  {
    hide TrieOk, PrefixLenOr0;
    var fs := FieldsOf(ts);
    forall j | 0 <= j < |ts| ensures FieldOk(fs[j]) && TrieOk(ts[j], R) {
      assert ts[j] in ts;
      TrieField(ts[j], R);
    }
    RefieldedBy(c, c.(tries := ts, subtables := subs), ts, fs, R);
  }

  lemma RuleCount(env: Env, c: Cls, R: set<Rule>)
    requires Inv(env, c, R)
    ensures c.nRules == |R|
  {
  }

  lemma InvTriesOk(env: Env, c: Cls, R: set<Rule>)
    requires Inv(env, c, R)
    ensures forall t :: t in c.tries ==> TrieOk(t, R)
  {
    hide TrieOk;
  }

  lemma RefieldedBy(c: Cls, c1: Cls, ts: seq<ClsTrie>, fs: seq<Field>, R: set<Rule>)
    requires |fs| == |ts| && forall j :: 0 <= j < |ts| ==> fs[j] == ts[j].field && FieldOk(fs[j]) && TrieOk(ts[j], R)
    requires c1 == c.(tries := ts, subtables := c1.subtables) && c1.subtables.Keys == c.subtables.Keys
    requires forall m :: m in c.subtables ==>
      c1.subtables[m] == c.subtables[m].(triePlen := seq(|ts|, j requires 0 <= j < |ts| => PrefixLenOr0(m, ts[j].field)))
    ensures Refielded(c, fs, c1, R)
  {
    hide TrieOk, PrefixLenOr0;
    var subs := map m | m in c.subtables ::
                  c.subtables[m].(triePlen := seq(|fs|, j requires 0 <= j < |fs| => PrefixLenOr0(m, fs[j])));
    forall m | m in c.subtables ensures c1.subtables[m] == subs[m] {
      assert seq(|ts|, j requires 0 <= j < |ts| => PrefixLenOr0(m, ts[j].field))
          == seq(|fs|, j requires 0 <= j < |fs| => PrefixLenOr0(m, fs[j]));
    }
    assert c1.subtables == subs;
  }

  /** What classifier_remove finds before it changes anything. */
  lemma RemoveParts(env: Env, c: Cls, R: set<Rule>, rule: Rule)
    requires Inv(env, c, R) && rule in R
    ensures Removable(env, c, rule)
    ensures PC.Sorted(c.order) && PC.Distinct(c.order)
    ensures var st, S := c.subtables[rule.mask], RulesWith(R, rule.mask);
            && SubtableShape(st) && SubOk(env, st, S) && rule in S && |st.triePlen| == |c.tries|
            && (st.nRules == 1 <==> S == {rule})
            && (S != {rule} && rule.priority == st.maxPriority && st.maxCount == 1 ==>
                  RemoveRule(env, st, rule).maxPriority < st.maxPriority)
    ensures var k := PC.IndexOf(c.order, rule.mask);
            k < |c.order| && c.order[k].maxPriority == c.subtables[rule.mask].maxPriority
  {
    hide SubtableOk, PartitionsOk, TrieOk, RulesWith, PC.Sorted, PC.Distinct, PC.Lists, TagOf, Shape, RemoveRule, OrderMap, SubOk, MaxOk, SubtableShape, ExactMetadata, Metadata;
    var m, st, S := rule.mask, c.subtables[rule.mask], RulesWith(R, rule.mask);
    RemoveReady(env, c, R, rule);
    InRulesWith(R, rule);
    InSubtable(env, c.tries, m, st, S, rule);
    OkShape(env, c.tries, m, st, S);
    OrderMapAt(c.subtables, m);
    PC.OrderIndex(c.order, OrderMap(c.subtables), m);
    if S != {rule} {
      MoreThanOne(S, rule);
      RemovedSubtableOk(env, c.tries, m, st, S, rule);
    }
  }

  // ------------------------------------------------ a hole behind the ports

  /** The mask that matches on the ports and on the word after them. */
  function PortsAndHash(): Mask {
    ZeroFlow()[TP_PORTS_OFS32 := Ones()][TP_PORTS_OFS32 + 1 := Ones()]
  }

  function ZeroFlow(): Flow {
    seq(FLOW_U32S, i => Zero())
  }

  /** Un-wildcarding fails when a mask has bits after the ports word.  Insert
      one rule on ports and datapath hash, and look up a flow with the same
      ports and another hash: no mask that leaves out the words after the
      ports decides it, and any lookup that starts from such a mask yields
      one.  The source's segments end by the ports word. */
  lemma HoleExample(env: Env, segments: seq<nat>) returns (rule: Rule, flow: Flow, states: seq<(Cls, set<Rule>)>)
    requires SegmentsOk(segments) && forall i :: 0 <= i < |segments| ==> segments[i] <= TP_PORTS_OFS32 + 1
    ensures Run(env, [Insert(rule)], states, segments)
    ensures var (c, R) := states[1];
            && R == {rule} && Inv(env, c, R) && NoMatch(R, flow) && LateBehindPorts(c) && !NoHoles(c, R, flow)
            && forall wc: Mask :: NothingLate(wc) ==> !Decided(c, R, flow, wc, |c.order|, None) && StaysEarly(c, R, flow, wc)
  {
    hide Inv, Classifier.Replace, SegmentsOk, Canonical, PortsMaskLen, Agree, RuleMatches, HoleRule, Harmful, NoHoles, Decided, NothingLate, Shape, LateBehindPorts;
    rule := Rule(0, ZeroFlow(), PortsAndHash(), 1);
    flow := ZeroFlow()[TP_PORTS_OFS32 + 1 := Ones()];
    var c0 := Init(segments);
    InitOk(env, segments);
    ExampleCanonical();
    ReplaceOk(env, c0, {}, rule);
    var c := Classifier.Replace(env, c0, rule);
    assert Replaced({}, rule) == {rule};
    states := [(c0, {}), (c, {rule})];
    ExampleHole(env, segments, c, rule, flow);
    HolesOf(c, {rule}, flow, None);
    forall wc: Mask | NothingLate(wc) ensures !Decided(c, {rule}, flow, wc, |c.order|, None) {
      HarmfulUndecided(env, c, {rule}, flow, wc, None);
    }
  }

  lemma ExampleCanonical()
    ensures Canonical(ZeroFlow(), PortsAndHash())
  {
    forall i | 0 <= i < FLOW_U32S ensures And(ZeroFlow()[i], PortsAndHash()[i]) == ZeroFlow()[i] {
      assert And(Zero(), PortsAndHash()[i]) == Zero();
    }
  }

  lemma ExampleHole(env: Env, segments: seq<nat>, c: Cls, rule: Rule, flow: Flow)
    requires SegmentsOk(segments) && forall i :: 0 <= i < |segments| ==> segments[i] <= TP_PORTS_OFS32 + 1
    requires Shape(Init(segments)) && c == Classifier.Replace(env, Init(segments), rule) && Inv(env, c, {rule})
    requires rule == Rule(0, ZeroFlow(), PortsAndHash(), 1) && flow == ZeroFlow()[TP_PORTS_OFS32 + 1 := Ones()]
    ensures NoMatch({rule}, flow) && LateBehindPorts(c) && !NoHoles(c, {rule}, flow)
  {
    hide Inv, Shape, SegmentsOk, StageOffsets, AddRule, PartitionsAdd, PC.Raised, PC.IndexOf, OrderFor, DisplacedBy, NothingLate, Agree, TagOf;
    var m: Mask := rule.mask;
    var st := NewSubtable(env, segments, [], m);
    OffsetsFrom(m, segments);
    InitOk(env, segments);
    ReplaceParts(env, Init(segments), {}, rule);
    AddRuleKeeps(env, st, rule);
    assert c.subtables == map[m := AddRule(env, st, rule)] && c.tries == [];
    assert m[TP_PORTS_OFS32] == Ones() && PortsMaskLen(m) > 0;
    ExampleMiss(rule, flow);
    assert RulesWith({rule}, m) == {rule};
    assert HoleRule(c, {rule}, flow, rule);
  }

  lemma ExampleMiss(rule: Rule, flow: Flow)
    requires rule == Rule(0, ZeroFlow(), PortsAndHash(), 1) && flow == ZeroFlow()[TP_PORTS_OFS32 + 1 := Ones()]
    ensures !RuleMatches(rule, flow) && Agree(rule.flow, flow, rule.mask, 0, TP_PORTS_OFS32 + 1)
  {
    var i := TP_PORTS_OFS32 + 1;
    assert !SameUnder(rule.flow[i], flow[i], rule.mask[i]) by {
      assert rule.mask[i][0] && flow[i][0] && !rule.flow[i][0];
    }
  }

  /** Index boundaries are segment boundaries. */
  lemma OffsetsFrom(m: Mask, segments: seq<nat>)
    requires SegmentsOk(segments)
    ensures forall i :: 0 <= i < |StageOffsets(m, segments)| ==> StageOffsets(m, segments)[i] in segments
  {
    hide MaskIn;
    StagesFrom(m, segments, 0);
  }

  lemma {:induction false} StagesFrom(m: Mask, segments: seq<nat>, prev: nat)
    requires SegmentsOk(segments) && forall i :: 0 <= i < |segments| ==> prev < segments[i]
    ensures forall i :: 0 <= i < |Stages(m, segments, prev)| ==> Stages(m, segments, prev)[i] in segments
    decreases |segments|
  {
    hide MaskIn;
    if segments != [] {
      StagesFrom(m, segments[1..], segments[0]);
    }
  }
}
