/** The classifier as a whole: subtables, their priority order, metadata
    partitions and shared prefix tries, and what insertion and removal do. */
module Classifier {
  import opened Options
  import opened Words
  import opened Flows
  import opened Tags
  import opened Subtables
  import opened SubtableLookup
  import PC = PriorityCache
  import PT = PrefixTrie

  datatype Cls = Cls(
    segments: seq<nat>,
    subtables: map<Mask, Subtable>,
    order: seq<PC.Entry>,
    partitions: map<seq<Word>, Tracker>,
    tries: seq<ClsTrie>,
    nRules: nat)

  // ------------------------------------------------ derived from a mask

  function Metadata(f: Flow): seq<Word> {
    f[METADATA_OFS..METADATA_OFS + 2]
  }

  predicate ExactMetadata(m: Mask) {
    m[METADATA_OFS] == Ones() && m[METADATA_OFS + 1] == Ones()
  }

  function TagOf(env: Env, m: Mask): Tag {
    if ExactMetadata(m) then TagCreate(env.maskHash(m)) else TagAll()
  }

  predicate MaskIn(m: Mask, lo: nat, hi: nat)
    requires hi <= FLOW_U32S
  {
    exists i :: lo <= i < hi && m[i] != Zero()
  }

  predicate SegmentsOk(segments: seq<nat>) {
    && (forall i :: 0 <= i < |segments| ==> 0 < segments[i] < FLOW_U32S)
    && (forall i, j :: 0 <= i < j < |segments| ==> segments[i] < segments[j])
  }

  /** The segment boundaries that add mask bits, from 'prev' on. */
  function Stages(m: Mask, segments: seq<nat>, prev: nat): (ofs: seq<nat>)
    requires SegmentsOk(segments) && forall i :: 0 <= i < |segments| ==> prev < segments[i]
    ensures SegmentsOk(ofs) && forall i :: 0 <= i < |ofs| ==> prev < ofs[i]
  {
    if segments == [] then []
    else
      var rest := Stages(m, segments[1..], segments[0]);
      if MaskIn(m, prev, segments[0]) then [segments[0]] + rest else rest
  }

  /** The index boundaries insert_subtable picks: the last one is dropped if
      the words after the last segment add nothing. */
  function StageOffsets(m: Mask, segments: seq<nat>): (ofs: seq<nat>)
    requires SegmentsOk(segments)
    ensures SegmentsOk(ofs)
  {
    var s := Stages(m, segments, 0);
    if s != [] && segments != [] && !MaskIn(m, segments[|segments| - 1], FLOW_U32S) then s[..|s| - 1] else s
  }

  /** A segment boundary is one of them exactly if the mask has bits in the
      segment that it ends, and bits behind it. */
  lemma StageOffsetsExact(m: Mask, segments: seq<nat>, i: nat)
    requires SegmentsOk(segments) && i < |segments|
    ensures segments[i] in StageOffsets(m, segments) <==>
              MaskIn(m, if i == 0 then 0 else segments[i - 1], segments[i]) && MaskIn(m, segments[i], FLOW_U32S)
    ensures forall x :: x in StageOffsets(m, segments) ==> x in segments
  {
    hide MaskIn;
    var s, last := Stages(m, segments, 0), segments[|segments| - 1];
    StagesExact(m, segments, 0, i);
    StagesWithin(m, segments, 0);
    if segments[i] in s {
      BitsBehind(m, segments, i);
    }
    if s != [] && !MaskIn(m, last, FLOW_U32S) {
      LastDropped(s, segments[i]);
    }
  }

  /** Dropping the last of increasing boundaries. */
  lemma LastDropped(s: seq<nat>, x: nat)
    requires s != [] && forall i, j :: 0 <= i < j < |s| ==> s[i] < s[j]
    ensures x in s[..|s| - 1] <==> x in s && x != s[|s| - 1]
    ensures forall y :: y in s[..|s| - 1] ==> y in s
  {
    var n := |s| - 1;
    assert s == s[..n] + [s[n]];
  }

  lemma {:induction false} StagesWithin(m: Mask, segments: seq<nat>, prev: nat)
    requires SegmentsOk(segments) && forall i :: 0 <= i < |segments| ==> prev < segments[i]
    ensures forall x :: x in Stages(m, segments, prev) ==> x in segments
    decreases |segments|
  {
    hide MaskIn;
    if segments != [] {
      StagesWithin(m, segments[1..], segments[0]);
    }
  }

  lemma {:induction false} StagesExact(m: Mask, segments: seq<nat>, prev: nat, i: nat)
    requires SegmentsOk(segments) && i < |segments| && forall i :: 0 <= i < |segments| ==> prev < segments[i]
    ensures segments[i] in Stages(m, segments, prev) <==> MaskIn(m, if i == 0 then prev else segments[i - 1], segments[i])
    decreases |segments|
  {
    hide MaskIn;
    var rest := segments[1..];
    if i > 0 {
      StagesExact(m, rest, segments[0], i - 1);
    } else {
      assert segments[0] !in Stages(m, rest, segments[0]);
    }
  }

  /** Behind a chosen boundary there are bits unless it is the last chosen and
      there are none behind the last segment. */
  lemma BitsBehind(m: Mask, segments: seq<nat>, i: nat)
    requires SegmentsOk(segments) && i < |segments| && segments[i] in Stages(m, segments, 0)
    ensures var s := Stages(m, segments, 0);
            MaskIn(m, segments[i], FLOW_U32S) <==> segments[i] != s[|s| - 1] || MaskIn(m, segments[|segments| - 1], FLOW_U32S)
  {
    hide Stages;
    var s, n, x := Stages(m, segments, 0), |segments|, segments[i];
    StagesWithin(m, segments, 0);
    if x != s[|s| - 1] {
      assert s[|s| - 1] in s && s[|s| - 1] in segments;
      var k :| 0 <= k < n && segments[k] == s[|s| - 1];
      StagesExact(m, segments, 0, k);
      LastIsLargest(s, x);
      assert i < k;
      var w :| segments[k - 1] <= w < segments[k] && m[w] != Zero();
    } else if MaskIn(m, x, FLOW_U32S) {
      var w :| x <= w < FLOW_U32S && m[w] != Zero();
      if w < segments[n - 1] {
        var k := SegmentOf(segments, i, w);
        StagesExact(m, segments, 0, k);
      }
    }
  }

  lemma LastIsLargest(s: seq<nat>, x: nat)
    requires x in s && x != s[|s| - 1] && forall i, j :: 0 <= i < j < |s| ==> s[i] < s[j]
    ensures x < s[|s| - 1]
  {
    var i :| 0 <= i < |s| && s[i] == x;
  }

  lemma {:induction false} SegmentOf(segments: seq<nat>, i: nat, w: nat) returns (k: nat)
    requires SegmentsOk(segments) && i < |segments| && segments[i] <= w < segments[|segments| - 1]
    ensures i < k < |segments| && segments[k - 1] <= w < segments[k]
    decreases |segments| - i
  {
    if w < segments[i + 1] {
      k := i + 1;
    } else {
      k := SegmentOf(segments, i + 1, w);
    }
  }

  /** insert_subtable, without listing it. */
  function NewSubtable(env: Env, segments: seq<nat>, tries: seq<ClsTrie>, m: Mask): Subtable
    requires SegmentsOk(segments) && forall t :: t in tries ==> FieldOk(t.field)
  {
    var ofs := StageOffsets(m, segments);
    Subtable(m, map[], 0, 0, 0, TagOf(env, m), ofs, seq(|ofs|, i => {}),
             seq(|tries|, j requires 0 <= j < |tries| => PrefixLen(m, tries[j].field)),
             PortsMaskLen(m), PT.Nil)
  }

  // ------------------------------------------------ what a classifier holds

  ghost function RulesWith(R: set<Rule>, m: Mask): set<Rule> {
    set r | r in R && r.mask == m
  }

  predicate HasMetadata(r: Rule, v: seq<Word>) {
    ExactMetadata(r.mask) && Metadata(r.flow) == v
  }

  ghost function WithMetadata(R: set<Rule>, v: seq<Word>): set<Rule> {
    set r | r in R && HasMetadata(r, v)
  }

  ghost function WithTagBit(env: Env, R: set<Rule>, v: seq<Word>, b: nat): set<Rule> {
    set r | r in R && HasMetadata(r, v) && b in TagOf(env, r.mask)
  }

  /** The prefix under which a rule is kept in the trie of a field. */
  function RulePrefix(r: Rule, fd: Field): seq<bool>
    requires FieldOk(fd)
  {
    var n := PrefixLen(r.mask, fd);
    if n <= 32 * fd.words then Bits(FieldWords(r.flow, fd))[..n] else []
  }

  predicate HasPrefix(r: Rule, fd: Field, q: seq<bool>)
    requires FieldOk(fd)
  {
    PrefixLen(r.mask, fd) > 0 && RulePrefix(r, fd) == q
  }

  ghost function WithPrefix(R: set<Rule>, fd: Field, q: seq<bool>): set<Rule>
    requires FieldOk(fd)
  {
    set r | r in R && HasPrefix(r, fd, q)
  }

  ghost predicate PartitionsOk(env: Env, partitions: map<seq<Word>, Tracker>, R: set<Rule>) {
    && (forall v :: v in partitions <==> WithMetadata(R, v) != {})
    && (forall v :: v in partitions ==> PartitionOk(env, partitions[v], R, v))
  }

  /** A partition's tags are those of the subtables with rules for 'v'. */
  ghost predicate PartitionOk(env: Env, t: Tracker, R: set<Rule>, v: seq<Word>) {
    TrackerShape(t) && forall b :: 0 <= b < N_TAG_BITS ==> t.counts[b] == |WithTagBit(env, R, v, b)|
  }

  /** A trie counts, for every bit string, the rules with that prefix. */
  ghost predicate TrieOk(t: ClsTrie, R: set<Rule>) {
    TrieShape(t) && forall q :: PT.Count(t.root, q) == |WithPrefix(R, t.field, q)|
  }

  ghost predicate SubtableOk(env: Env, tries: seq<ClsTrie>, m: Mask, st: Subtable, S: set<Rule>) {
    && st.mask == m && SubOk(env, st, S) && st.tag == TagOf(env, m)
    && |st.triePlen| == |tries|
    && forall j :: 0 <= j < |tries| ==> FieldOk(tries[j].field) && st.triePlen[j] == PrefixLen(m, tries[j].field)
  }

  ghost predicate SubtablesOk(env: Env, subtables: map<Mask, Subtable>, tries: seq<ClsTrie>, R: set<Rule>) {
    && (forall m :: m in subtables ==>
          RulesWith(R, m) != {} && SubtableOk(env, tries, m, subtables[m], RulesWith(R, m)))
    && (forall r :: r in R ==> r.mask in subtables)
  }

  function OrderMap(subtables: map<Mask, Subtable>): map<Mask, (Tag, nat)> {
    map m | m in subtables :: (subtables[m].tag, subtables[m].maxPriority)
  }

  /** Every subtable is indexed at the boundaries its mask calls for. */
  ghost predicate StagesOk(segments: seq<nat>, subtables: map<Mask, Subtable>)
    requires SegmentsOk(segments)
  {
    forall m :: m in subtables ==> subtables[m].indexOfs == StageOffsets(m, segments)
  }

  /** The classifier holds exactly the rules 'R'. */
  ghost predicate Inv(env: Env, c: Cls, R: set<Rule>) {
    && SegmentsOk(c.segments) && StagesOk(c.segments, c.subtables)
    && SubtablesOk(env, c.subtables, c.tries, R)
    && PC.OrderOk(c.order, OrderMap(c.subtables))
    && PartitionsOk(env, c.partitions, R)
    && (forall j :: 0 <= j < |c.tries| ==> TrieOk(c.tries[j], R))
    && c.nRules == |R|
  }

  // ------------------------------------------------ tries

  function TrieAdd(t: ClsTrie, plen: nat, rule: Rule): ClsTrie
    requires FieldOk(t.field)
  {
    if 0 < plen <= 32 * t.field.words
    then t.(root := PT.Insert(t.root, FieldWords(rule.flow, t.field), 0, plen)) else t
  }

  function TrieRemove(t: ClsTrie, plen: nat, rule: Rule): ClsTrie
    requires FieldOk(t.field)
  {
    if 0 < plen <= 32 * t.field.words
    then t.(root := PT.Remove(t.root, FieldWords(rule.flow, t.field), 0, plen).trie) else t
  }

  lemma WithPrefixAdd(R: set<Rule>, x: Rule, fd: Field, q: seq<bool>)
    requires x !in R && FieldOk(fd)
    ensures |WithPrefix(R + {x}, fd, q)| == |WithPrefix(R, fd, q)| + if HasPrefix(x, fd, q) then 1 else 0
  {
    hide HasPrefix;
    assert WithPrefix(R + {x}, fd, q) == WithPrefix(R, fd, q) + if HasPrefix(x, fd, q) then {x} else {};
  }

  lemma TrieAddOk(t: ClsTrie, R: set<Rule>, rule: Rule)
    requires TrieOk(t, R) && rule !in R
    ensures TrieOk(TrieAdd(t, PrefixLen(rule.mask, t.field), rule), R + {rule})
  {
    hide PT.Insert, PT.Ok, PT.Count, Bits, PrefixLen, WithPrefix;
    var fd, n := t.field, PrefixLen(rule.mask, t.field);
    var t1 := TrieAdd(t, n, rule);
    if n > 0 {
      PrefixLenShape(rule.mask, fd);
      PT.InsertSpec(t.root, true, FieldWords(rule.flow, fd), 0, n);
      assert PT.Rest(FieldWords(rule.flow, fd), 0, n) == RulePrefix(rule, fd);
    }
    forall q ensures PT.Count(t1.root, q) == |WithPrefix(R + {rule}, fd, q)| {
      WithPrefixAdd(R, rule, fd, q);
    }
  }

  lemma TrieRemoveOk(t: ClsTrie, R: set<Rule>, rule: Rule)
    requires TrieOk(t, R) && rule in R
    ensures TrieOk(TrieRemove(t, PrefixLen(rule.mask, t.field), rule), R - {rule})
  {
    hide PT.Remove, PT.Ok, PT.Count, Bits, PrefixLen, WithPrefix;
    var fd, n := t.field, PrefixLen(rule.mask, t.field);
    var t1, T := TrieRemove(t, n, rule), R - {rule};
    assert T + {rule} == R;
    if n > 0 {
      PrefixLenShape(rule.mask, fd);
      PT.RemoveSpec(t.root, true, FieldWords(rule.flow, fd), 0, n);
      assert PT.Rest(FieldWords(rule.flow, fd), 0, n) == RulePrefix(rule, fd);
    }
    forall q ensures PT.Count(t1.root, q) == |WithPrefix(T, fd, q)| {
      WithPrefixAdd(T, rule, fd, q);
    }
  }

  lemma TrieReplaceOk(t: ClsTrie, R: set<Rule>, rule: Rule, o: Rule)
    requires TrieOk(t, R) && o in R && SameKey(o, rule) && (rule in R ==> rule == o)
    ensures TrieOk(t, R - {o} + {rule})
  {
    hide PT.Count, PT.Ok, Bits, PrefixLen, WithPrefix;
    var T := R - {o};
    assert T + {o} == R;
    forall q ensures PT.Count(t.root, q) == |WithPrefix(T + {rule}, t.field, q)| {
      WithPrefixAdd(T, o, t.field, q);
      WithPrefixAdd(T, rule, t.field, q);
    }
  }

  // ------------------------------------------------ partitions

  function PartitionsAdd(env: Env, partitions: map<seq<Word>, Tracker>, rule: Rule): map<seq<Word>, Tracker>
    requires forall v :: v in partitions ==> |partitions[v].counts| == N_TAG_BITS
  {
    if !ExactMetadata(rule.mask) then partitions
    else
      var v := Metadata(rule.flow);
      partitions[v := AddTag(if v in partitions then partitions[v] else TrackerInit(), TagOf(env, rule.mask))]
  }

  function PartitionsRemove(env: Env, partitions: map<seq<Word>, Tracker>, rule: Rule): map<seq<Word>, Tracker>
    requires ExactMetadata(rule.mask) ==>
               var v := Metadata(rule.flow);
               v in partitions && TrackerShape(partitions[v]) && TagOf(env, rule.mask) <= partitions[v].tags
  {
    if !ExactMetadata(rule.mask) then partitions
    else
      var v := Metadata(rule.flow);
      var t := SubTag(partitions[v], TagOf(env, rule.mask));
      if t.tags == {} then partitions - {v} else partitions[v := t]
  }

  lemma WithTagBitAdd(env: Env, R: set<Rule>, x: Rule, v: seq<Word>, b: nat)
    requires x !in R
    ensures |WithTagBit(env, R + {x}, v, b)|
         == |WithTagBit(env, R, v, b)| + if HasMetadata(x, v) && b in TagOf(env, x.mask) then 1 else 0
  {
    hide HasMetadata, TagOf;
    assert WithTagBit(env, R + {x}, v, b)
        == WithTagBit(env, R, v, b) + if HasMetadata(x, v) && b in TagOf(env, x.mask) then {x} else {};
  }

  lemma WithMetadataAdd(R: set<Rule>, x: Rule, v: seq<Word>)
    ensures WithMetadata(R + {x}, v) == WithMetadata(R, v) + if HasMetadata(x, v) then {x} else {}
  {
  }

  lemma PartitionsAddOk(env: Env, partitions: map<seq<Word>, Tracker>, R: set<Rule>, rule: Rule)
    requires PartitionsOk(env, partitions, R) && rule !in R
    ensures PartitionsOk(env, PartitionsAdd(env, partitions, rule), R + {rule})
  {
    hide WithMetadata, WithTagBit, ExactMetadata, Metadata, TagOf;
    var p1 := PartitionsAdd(env, partitions, rule);
    forall v ensures v in p1 <==> WithMetadata(R + {rule}, v) != {} {
      WithMetadataAdd(R, rule, v);
    }
    forall v | v in p1 ensures PartitionOk(env, p1[v], R + {rule}, v) {
      forall b | 0 <= b < N_TAG_BITS ensures p1[v].counts[b] == |WithTagBit(env, R + {rule}, v, b)| {
        WithTagBitAdd(env, R, rule, v, b);
        if v !in partitions {
          NoTagBits(env, R, v, b);
        }
      }
    }
  }

  lemma NoTagBits(env: Env, R: set<Rule>, v: seq<Word>, b: nat)
    requires WithMetadata(R, v) == {}
    ensures WithTagBit(env, R, v, b) == {}
  {
    assert WithTagBit(env, R, v, b) <= WithMetadata(R, v);
  }

  /** A rule with exact metadata has its subtable's tag in the partition. */
  lemma PartitionHasTag(env: Env, partitions: map<seq<Word>, Tracker>, R: set<Rule>, r: Rule)
    requires PartitionsOk(env, partitions, R) && r in R && ExactMetadata(r.mask)
    ensures var v := Metadata(r.flow); v in partitions && TrackerShape(partitions[v]) && TagOf(env, r.mask) <= partitions[v].tags
  {
    hide TagOf;
    var v := Metadata(r.flow);
    assert r in WithMetadata(R, v);
    assert PartitionOk(env, partitions[v], R, v);
    forall b | b in TagOf(env, r.mask) ensures b in partitions[v].tags {
      assert r in WithTagBit(env, R, v, b);
    }
  }

  lemma PartitionsRemoveOk(env: Env, partitions: map<seq<Word>, Tracker>, R: set<Rule>, rule: Rule)
    requires PartitionsOk(env, partitions, R) && rule in R
    ensures ExactMetadata(rule.mask) ==>
              var v := Metadata(rule.flow);
              v in partitions && TrackerShape(partitions[v]) && TagOf(env, rule.mask) <= partitions[v].tags
    ensures PartitionsOk(env, PartitionsRemove(env, partitions, rule), R - {rule})
  {
    hide WithMetadata, WithTagBit, ExactMetadata, Metadata, TagOf;
    var T := R - {rule};
    assert T + {rule} == R;
    if ExactMetadata(rule.mask) {
      PartitionHasTag(env, partitions, R, rule);
      var w := Metadata(rule.flow);
      var t := SubTag(partitions[w], TagOf(env, rule.mask));
      assert PartitionOk(env, t, T, w) by {
        forall b | 0 <= b < N_TAG_BITS ensures t.counts[b] == |WithTagBit(env, T, w, b)| {
          WithTagBitAdd(env, T, rule, w, b);
        }
      }
      EmptyPartition(env, t, T, w);
      PartitionsKeep(env, partitions, R, T, rule, w);
    } else {
      forall v ensures v in partitions <==> WithMetadata(T, v) != {} {
        WithMetadataAdd(T, rule, v);
      }
      forall v | v in partitions ensures PartitionOk(env, partitions[v], T, v) {
        forall b | 0 <= b < N_TAG_BITS ensures partitions[v].counts[b] == |WithTagBit(env, T, v, b)| {
          WithTagBitAdd(env, T, rule, v, b);
        }
      }
    }
  }

  lemma PartitionsKeep(env: Env, partitions: map<seq<Word>, Tracker>, R: set<Rule>, T: set<Rule>, rule: Rule, w: seq<Word>)
    requires PartitionsOk(env, partitions, R) && rule !in T && T + {rule} == R && w == Metadata(rule.flow)
    ensures forall v :: v != w ==> (v in partitions <==> WithMetadata(T, v) != {})
    ensures forall v :: v in partitions && v != w ==> PartitionOk(env, partitions[v], T, v)
  {
    hide WithMetadata, WithTagBit, ExactMetadata, Metadata, TagOf;
    forall v | v != w ensures v in partitions <==> WithMetadata(T, v) != {} {
      WithMetadataAdd(T, rule, v);
    }
    forall v | v in partitions && v != w ensures PartitionOk(env, partitions[v], T, v) {
      assert PartitionOk(env, partitions[v], R, v);
      forall b | 0 <= b < N_TAG_BITS ensures partitions[v].counts[b] == |WithTagBit(env, T, v, b)| {
        WithTagBitAdd(env, T, rule, v, b);
      }
    }
  }

  /** A partition has no tags left exactly when no rule uses it. */
  lemma EmptyPartition(env: Env, t: Tracker, T: set<Rule>, v: seq<Word>)
    requires PartitionOk(env, t, T, v)
    ensures t.tags == {} <==> WithMetadata(T, v) == {}
  {
    if WithMetadata(T, v) == {} {
      forall b | b in t.tags ensures false {
        NoTagBits(env, T, v, b);
      }
    } else {
      var r :| r in WithMetadata(T, v);
      var b :| b in TagOf(env, r.mask);
      assert r in WithTagBit(env, T, v, b);
      assert b in t.tags;
    }
  }

  lemma PartitionsReplaceOk(env: Env, partitions: map<seq<Word>, Tracker>, R: set<Rule>, rule: Rule, o: Rule)
    requires PartitionsOk(env, partitions, R) && o in R && SameKey(o, rule) && (rule in R ==> rule == o)
    ensures PartitionsOk(env, partitions, R - {o} + {rule})
  {
    hide WithMetadata, WithTagBit, ExactMetadata, Metadata, TagOf;
    var T := R - {o};
    assert T + {o} == R;
    var N := T + {rule};
    forall v ensures v in partitions <==> WithMetadata(N, v) != {} {
      WithMetadataAdd(T, o, v);
      WithMetadataAdd(T, rule, v);
    }
    forall v | v in partitions ensures PartitionOk(env, partitions[v], N, v) {
      assert PartitionOk(env, partitions[v], R, v);
      forall b | 0 <= b < N_TAG_BITS ensures partitions[v].counts[b] == |WithTagBit(env, N, v, b)| {
        WithTagBitAdd(env, T, o, v, b);
        WithTagBitAdd(env, T, rule, v, b);
      }
    }
  }

  // ------------------------------------------------ insertion and removal

  /** What the operations need to be defined; part of the invariant. */
  ghost predicate Shape(c: Cls) {
    && SegmentsOk(c.segments)
    && (forall t :: t in c.tries ==> FieldOk(t.field))
    && (forall m :: m in c.subtables ==> SubtableShape(c.subtables[m]) && |c.subtables[m].triePlen| == |c.tries|)
    && (forall v :: v in c.partitions ==> |c.partitions[v].counts| == N_TAG_BITS)
    && (forall m :: m in c.subtables ==> PC.IndexOf(c.order, m) < |c.order|)
  }

  lemma InvShape(env: Env, c: Cls, R: set<Rule>)
    requires Inv(env, c, R)
    ensures Shape(c)
  {
    hide SubtableOk, PC.OrderOk, PartitionOk, TrieOk;
    forall t | t in c.tries ensures FieldOk(t.field) {
      var j :| 0 <= j < |c.tries| && c.tries[j] == t;
      TrieField(c.tries[j], R);
    }
    forall m | m in c.subtables ensures SubtableShape(c.subtables[m]) && |c.subtables[m].triePlen| == |c.tries| {
      OkShape(env, c.tries, m, c.subtables[m], RulesWith(R, m));
    }
    forall m | m in c.subtables ensures PC.IndexOf(c.order, m) < |c.order| {
      PC.OrderIndex(c.order, OrderMap(c.subtables), m);
    }
    forall v | v in c.partitions ensures |c.partitions[v].counts| == N_TAG_BITS {
      PartitionSize(env, c.partitions[v], R, v);
    }
  }

  lemma TrieField(t: ClsTrie, R: set<Rule>)
    requires TrieOk(t, R)
    ensures FieldOk(t.field)
  {
  }

  lemma OkShape(env: Env, tries: seq<ClsTrie>, m: Mask, st: Subtable, S: set<Rule>)
    requires SubtableOk(env, tries, m, st, S)
    ensures SubtableShape(st) && |st.triePlen| == |tries|
  {
    hide GroupsOk, IndexOk, MaxOk, PrefixLen, PT.Count;
  }

  lemma PartitionSize(env: Env, t: Tracker, R: set<Rule>, v: seq<Word>)
    requires PartitionOk(env, t, R, v)
    ensures |t.counts| == N_TAG_BITS
  {
  }

  /** The subtable for a rule and the order it is listed in, created at the
      end of the order if there was none. */
  function SubtableFor(env: Env, c: Cls, m: Mask): Subtable
    requires SegmentsOk(c.segments) && forall t :: t in c.tries ==> FieldOk(t.field)
  {
    if m in c.subtables then c.subtables[m] else NewSubtable(env, c.segments, c.tries, m)
  }

  function OrderFor(env: Env, c: Cls, m: Mask): seq<PC.Entry> {
    if m in c.subtables then c.order else c.order + [PC.Entry(m, TagOf(env, m), 0)]
  }

  /** The rule a replacement displaces. */
  ghost function DisplacedBy(env: Env, c: Cls, rule: Rule): Option<Rule>
    requires Shape(c)
  {
    Displaced(OldList(env, SubtableFor(env, c, rule.mask), rule), rule)
  }

  /** classifier_replace. */
  ghost function Replace(env: Env, c: Cls, rule: Rule): Cls
    requires Shape(c)
  {
    var st := SubtableFor(env, c, rule.mask);
    var st1 := AddRule(env, st, rule);
    if DisplacedBy(env, c, rule).Some? then c.(subtables := c.subtables[rule.mask := st1])
    else
      var order := OrderFor(env, c, rule.mask);
      var k := PC.IndexOf(order, rule.mask);
      c.(subtables := c.subtables[rule.mask := st1],
         order := if rule.priority > st.maxPriority && k < |order| then PC.Raised(order, k, rule.priority) else order,
         partitions := PartitionsAdd(env, c.partitions, rule),
         tries := seq(|c.tries|, j requires 0 <= j < |c.tries| =>
                    TrieAdd(c.tries[j], if j < |st.triePlen| then st.triePlen[j] else 0, rule)),
         nRules := c.nRules + 1)
  }

  lemma NewSubtableOk(env: Env, segments: seq<nat>, tries: seq<ClsTrie>, m: Mask)
    requires SegmentsOk(segments) && forall t :: t in tries ==> FieldOk(t.field)
    ensures SubtableOk(env, tries, m, NewSubtable(env, segments, tries, m), {})
  {
    hide StageOffsets, PrefixLen, PT.Count, TagOf, PortsMaskLen;
    var st := NewSubtable(env, segments, tries, m);
    assert WithPriority({}, 0) == {};
    assert GroupsOk(env, m, map[], {});
    assert MaxOk(0, 0, {});
    forall i | 0 <= i < |st.indices| ensures IndexOk(env, m, st.indexOfs[i], st.indices[i], {}) { }
    NoPorts(st.portsMaskLen);
  }

  lemma NoPorts(len: nat)
    requires len <= 32
    ensures PortsOk(PT.Nil, len, {})
  {
    hide PortsBits;
    forall q ensures |WithPorts({}, len, q)| == 0 {
      assert WithPorts({}, len, q) == {};
    }
  }

  lemma SubtableForOk(env: Env, c: Cls, R: set<Rule>, m: Mask)
    requires SegmentsOk(c.segments) && (forall t :: t in c.tries ==> FieldOk(t.field)) && SubtablesOk(env, c.subtables, c.tries, R)
    ensures SubtableOk(env, c.tries, m, SubtableFor(env, c, m), RulesWith(R, m))
  {
    hide SubOk, NewSubtable, TagOf, PrefixLen;
    if m !in c.subtables {
      NewSubtableOk(env, c.segments, c.tries, m);
      assert RulesWith(R, m) == {};
    }
  }

  lemma OrderForOk(env: Env, c: Cls, m: Mask)
    requires Shape(c) && PC.OrderOk(c.order, OrderMap(c.subtables))
    ensures PC.OrderOk(OrderFor(env, c, m), OrderMap(c.subtables[m := SubtableFor(env, c, m)]))
  {
    hide PC.OrderOk, StageOffsets, PrefixLen, TagOf, PortsMaskLen;
    var st := SubtableFor(env, c, m);
    if m in c.subtables {
      assert c.subtables[m := st] == c.subtables;
    } else {
      PC.OrderAppend(c.order, OrderMap(c.subtables), m, TagOf(env, m));
      OrderMapUpdate(c.subtables, m, st);
    }
  }

  lemma OrderMapUpdate(subtables: map<Mask, Subtable>, m: Mask, st: Subtable)
    ensures OrderMap(subtables[m := st]) == OrderMap(subtables)[m := (st.tag, st.maxPriority)]
  {
  }

  /** Other subtables are untouched by a change under one mask. */
  lemma RulesWithReplaced(R: set<Rule>, rule: Rule, m: Mask)
    ensures RulesWith(Replaced(R, rule), m) == if m == rule.mask then Replaced(RulesWith(R, m), rule) else RulesWith(R, m)
  {
  }

  lemma AddedSubtableOk(env: Env, c: Cls, R: set<Rule>, rule: Rule)
    requires Shape(c) && SubtablesOk(env, c.subtables, c.tries, R) && Canonical(rule.flow, rule.mask)
    ensures SubtableShape(SubtableFor(env, c, rule.mask))
    ensures SubtableOk(env, c.tries, rule.mask, AddRule(env, SubtableFor(env, c, rule.mask), rule),
                       Replaced(RulesWith(R, rule.mask), rule))
  {
    hide SubOk, AddRule, SubtableFor, Replaced, Canonical, TagOf, PrefixLen, RulesWith, SubtableShape, SubtablesOk;
    var m, st := rule.mask, SubtableFor(env, c, rule.mask);
    ShapeFor(env, c, R, m);
    SubtableForOk(env, c, R, m);
    AddRuleOk(env, st, RulesWith(R, m), rule);
    AddRuleKeeps(env, st, rule);
  }

  predicate FieldsMatch(a: seq<ClsTrie>, b: seq<ClsTrie>) {
    |b| == |a| && forall j :: 0 <= j < |a| ==> b[j].field == a[j].field
  }

  lemma SameFields(env: Env, tries: seq<ClsTrie>, more: seq<ClsTrie>, m: Mask, st: Subtable, S: set<Rule>)
    requires SubtableOk(env, tries, m, st, S)
    requires FieldsMatch(tries, more)
    ensures SubtableOk(env, more, m, st, S)
  {
    hide SubOk, TagOf, PrefixLen;
  }

  lemma SubtablesAdd(env: Env, c: Cls, R: set<Rule>, rule: Rule, tries: seq<ClsTrie>)
    requires Shape(c) && SubtablesOk(env, c.subtables, c.tries, R) && Canonical(rule.flow, rule.mask)
    requires FieldsMatch(c.tries, tries)
    ensures SubtableShape(SubtableFor(env, c, rule.mask))
    ensures SubtablesOk(env, c.subtables[rule.mask := AddRule(env, SubtableFor(env, c, rule.mask), rule)], tries,
                        Replaced(R, rule))
  {
    hide SubtableOk, AddRule, SubtableFor, Replaced, Canonical, RulesWith, SubtableShape;
    AddedSubtableOk(env, c, R, rule);
    var m := rule.mask;
    var subs := c.subtables[m := AddRule(env, SubtableFor(env, c, m), rule)];
    forall x | x in subs
      ensures RulesWith(Replaced(R, rule), x) != {} && SubtableOk(env, tries, x, subs[x], RulesWith(Replaced(R, rule), x))
    {
      RulesWithReplaced(R, rule, x);
      if x == m {
        ReplacedHas(RulesWith(R, m), rule, rule);
      }
      SameFields(env, c.tries, tries, x, subs[x], RulesWith(Replaced(R, rule), x));
    }
    forall r | r in Replaced(R, rule) ensures r.mask in subs {
      ReplacedHas(R, rule, r);
    }
  }

  lemma ReplacedHas(R: set<Rule>, rule: Rule, r: Rule)
    ensures rule in Replaced(R, rule)
    ensures r in Replaced(R, rule) ==> r == rule || r in R
  {
  }

  lemma AddRuleKeeps(env: Env, st: Subtable, rule: Rule)
    requires SubtableShape(st)
    ensures var st1 := AddRule(env, st, rule);
            && st1.mask == st.mask && st1.tag == st.tag && st1.triePlen == st.triePlen
            && st1.indexOfs == st.indexOfs && st1.portsMaskLen == st.portsMaskLen
            && (Displaced(OldList(env, st, rule), rule).Some? ==> st1.maxPriority == st.maxPriority)
            && (Displaced(OldList(env, st, rule), rule).None? ==>
                  st1.maxPriority == if rule.priority > st.maxPriority then rule.priority else st.maxPriority)
  {
    hide OldList, Displaced, InsertSorted, IndexAdd, HashUpTo, PT.Insert;
  }

  lemma OldInR(env: Env, c: Cls, R: set<Rule>, rule: Rule)
    requires Shape(c) && SubtablesOk(env, c.subtables, c.tries, R)
    ensures var d := DisplacedBy(env, c, rule);
            && (d.Some? ==> d.value in R && SameKey(d.value, rule))
            && (forall r :: r in R && SameKey(r, rule) ==> d == Some(r))
  {
    hide SubOk, GroupsOk, Displaced, OldList, SubtableFor, TagOf, PrefixLen;
    var st := SubtableFor(env, c, rule.mask);
    SubtableForOk(env, c, R, rule.mask);
    SubGroups(env, st, RulesWith(R, rule.mask));
    DisplacedIsSameKey(env, st, RulesWith(R, rule.mask), rule);
    assert forall r :: r in R && SameKey(r, rule) ==> r in RulesWith(R, rule.mask);
  }

  lemma SubGroups(env: Env, st: Subtable, S: set<Rule>)
    requires SubOk(env, st, S)
    ensures GroupsOk(env, st.mask, st.groups, S)
  {
  }

  /** classifier_replace keeps the invariant and the abstract rule set: the
      new rule takes the place of the identical one, if any. */
  lemma ReplaceOk(env: Env, c: Cls, R: set<Rule>, rule: Rule)
    requires Inv(env, c, R) && Canonical(rule.flow, rule.mask)
    ensures Shape(c) && Inv(env, Replace(env, c, rule), Replaced(R, rule))
    ensures var d := DisplacedBy(env, c, rule);
            && (d.Some? ==> d.value in R && SameKey(d.value, rule))
            && (forall r :: r in R && SameKey(r, rule) ==> d == Some(r))
  {
    hide SubtablesOk, PC.OrderOk, PartitionsOk, TrieOk, AddRule, SubtableFor, OrderFor, DisplacedBy, Replaced, Canonical,
         PartitionsAdd, TrieAdd, OrderMap, PC.Raised, PC.IndexOf, SubtableShape, SegmentsOk;
    InvShape(env, c, R);
    OldInR(env, c, R, rule);
    if DisplacedBy(env, c, rule).Some? {
      ReplaceSwap(env, c, R, rule);
    } else {
      ReplaceNew(env, c, R, rule);
    }
  }

  lemma ReplaceSwap(env: Env, c: Cls, R: set<Rule>, rule: Rule)
    requires Shape(c) && Inv(env, c, R) && Canonical(rule.flow, rule.mask)
    requires var d := DisplacedBy(env, c, rule);
             && d.Some? && d.value in R && SameKey(d.value, rule)
             && (forall r :: r in R && SameKey(r, rule) ==> d == Some(r))
    ensures Inv(env, Replace(env, c, rule), Replaced(R, rule))
  {
    hide SubtablesOk, PC.OrderOk, PartitionsOk, TrieOk, AddRule, SubtableFor, DisplacedBy, Replaced, Canonical,
         OrderMap, SegmentsOk, NewSubtable, OldList, Displaced, SubtableShape, SameKey;
    var o := DisplacedBy(env, c, rule).value;
    var st := SubtableFor(env, c, rule.mask);
    OldSubtable(env, c, R, rule);
    SubtablesAdd(env, c, R, rule, c.tries);
    ReplacedSwap(R, rule, o);
    KeyRefl(rule);
    SwapSize(R, Replaced(R, rule), o, rule);
    PartitionsReplaceOk(env, c.partitions, R, rule, o);
    forall j | 0 <= j < |c.tries| ensures TrieOk(c.tries[j], Replaced(R, rule)) {
      TrieReplaceOk(c.tries[j], R, rule, o);
    }
    AddRuleKeeps(env, st, rule);
    assert Displaced(OldList(env, st, rule), rule) == DisplacedBy(env, c, rule) by { DisplacedByIs(env, c, rule); }
    OrderMapSame(c.subtables, rule.mask, AddRule(env, st, rule));
  }

  lemma KeyRefl(rule: Rule)
    ensures SameKey(rule, rule)
  {
  }

  lemma DisplacedByIs(env: Env, c: Cls, rule: Rule)
    requires Shape(c)
    ensures DisplacedBy(env, c, rule) == Displaced(OldList(env, SubtableFor(env, c, rule.mask), rule), rule)
  {
  }

  /** Only a subtable that exists can hold an identical rule. */
  lemma OldSubtable(env: Env, c: Cls, R: set<Rule>, rule: Rule)
    requires Shape(c) && SubtablesOk(env, c.subtables, c.tries, R)
    requires var d := DisplacedBy(env, c, rule); d.Some? && d.value in R && SameKey(d.value, rule)
    ensures rule.mask in c.subtables && SubtableFor(env, c, rule.mask) == c.subtables[rule.mask]
    ensures SubtableShape(c.subtables[rule.mask])
  {
    hide SubOk, PrefixLen, TagOf, DisplacedBy, SubtableOk;
    var o := DisplacedBy(env, c, rule).value;
    assert o.mask in c.subtables;
  }

  lemma OrderMapSame(subtables: map<Mask, Subtable>, m: Mask, st: Subtable)
    requires m in subtables && st.tag == subtables[m].tag && st.maxPriority == subtables[m].maxPriority
    ensures OrderMap(subtables[m := st]) == OrderMap(subtables)
  {
  }

  lemma ReplaceNew(env: Env, c: Cls, R: set<Rule>, rule: Rule)
    requires Shape(c) && Inv(env, c, R) && Canonical(rule.flow, rule.mask)
    requires DisplacedBy(env, c, rule).None? && forall r :: r in R ==> !SameKey(r, rule)
    ensures Inv(env, Replace(env, c, rule), Replaced(R, rule))
  {
    hide SubtablesOk, PC.OrderOk, PartitionsOk, TrieOk, AddRule, SubtableFor, OrderFor, DisplacedBy, Replaced, Canonical,
         PartitionsAdd, TrieAdd, OrderMap, SegmentsOk, PC.Raised, PC.IndexOf, SameKey;
    var c1 := Replace(env, c, rule);
    ReplacedNew(R, rule);
    PartitionsAddOk(env, c.partitions, R, rule);
    forall j | 0 <= j < |c.tries|
      ensures TrieOk(c1.tries[j], Replaced(R, rule)) && c1.tries[j].field == c.tries[j].field
    {
      TriePlenIs(env, c, R, rule.mask, j);
      TrieAddField(c.tries[j], PrefixLen(rule.mask, c.tries[j].field), rule);
      TrieAddOk(c.tries[j], R, rule);
    }
    SubtablesAdd(env, c, R, rule, c1.tries);
    OrderAfterAdd(env, c, R, rule);
    ReplaceParts(env, c, R, rule);
    SameStages(env, c, rule);
  }

  /** The subtable of a new rule is indexed as its mask calls for. */
  lemma SameStages(env: Env, c: Cls, rule: Rule)
    requires SegmentsOk(c.segments) && (forall t :: t in c.tries ==> FieldOk(t.field)) && StagesOk(c.segments, c.subtables)
    requires SubtableShape(SubtableFor(env, c, rule.mask))
    ensures AddRule(env, SubtableFor(env, c, rule.mask), rule).indexOfs == StageOffsets(rule.mask, c.segments)
  {
    hide AddRule, SegmentsOk, StageOffsets, TagOf, PrefixLen, FieldOk, SubtableShape;
    AddRuleKeeps(env, SubtableFor(env, c, rule.mask), rule);
  }

  lemma TrieAddField(t: ClsTrie, plen: nat, rule: Rule)
    requires FieldOk(t.field)
    ensures TrieAdd(t, plen, rule).field == t.field
  {
  }

  lemma TriePlenIs(env: Env, c: Cls, R: set<Rule>, m: Mask, j: nat)
    requires Shape(c) && SubtablesOk(env, c.subtables, c.tries, R) && j < |c.tries|
    ensures FieldOk(c.tries[j].field)
    ensures var st := SubtableFor(env, c, m); j < |st.triePlen| && st.triePlen[j] == PrefixLen(m, c.tries[j].field)
  {
    hide SubOk, SubtableFor, PrefixLen, TagOf;
    SubtableForOk(env, c, R, m);
  }

  lemma OrderAfterAdd(env: Env, c: Cls, R: set<Rule>, rule: Rule)
    requires Shape(c) && PC.OrderOk(c.order, OrderMap(c.subtables)) && DisplacedBy(env, c, rule).None?
    requires SubtablesOk(env, c.subtables, c.tries, R)
    ensures PC.OrderOk(Replace(env, c, rule).order, OrderMap(Replace(env, c, rule).subtables))
  {
    hide PC.OrderOk, SubtablesOk, AddRule, OrderFor, PartitionsAdd, TrieAdd, OrderMap, PC.Raised, PC.IndexOf, SubtableFor, Displaced, OldList;
    var m, st := rule.mask, SubtableFor(env, c, rule.mask);
    ShapeFor(env, c, R, m);
    var st1 := AddRule(env, st, rule);
    var mid, order := c.subtables[m := st], OrderFor(env, c, m);
    OrderForOk(env, c, m);
    AddRuleKeeps(env, st, rule);
    assert mid[m := st1] == c.subtables[m := st1];
    OrderMapUpdate(mid, m, st1);
    OrderMapAt(mid, m);
    if rule.priority > st.maxPriority {
      PC.OrderRaise(order, OrderMap(mid), m, rule.priority);
    } else {
      OrderMapSame(mid, m, st1);
    }
  }

  lemma OrderMapAt(subtables: map<Mask, Subtable>, m: Mask)
    requires m in subtables
    ensures m in OrderMap(subtables) && OrderMap(subtables)[m] == (subtables[m].tag, subtables[m].maxPriority)
  {
  }

  lemma ShapeFor(env: Env, c: Cls, R: set<Rule>, m: Mask)
    requires Shape(c) && SubtablesOk(env, c.subtables, c.tries, R)
    ensures SubtableShape(SubtableFor(env, c, m))
  {
    hide SubOk, SubtableFor, PrefixLen, TagOf, SubtableOk, SubtableShape;
    SubtableForOk(env, c, R, m);
    OkShape(env, c.tries, m, SubtableFor(env, c, m), RulesWith(R, m));
  }

  // ------------------------------------------------ removal

  /** The rule is in the classifier, as classifier_remove asserts. */
  ghost predicate Removable(env: Env, c: Cls, rule: Rule) {
    && Shape(c) && rule.mask in c.subtables
    && rule.flow in c.subtables[rule.mask].groups
    && c.subtables[rule.mask].nRules > 0 && c.subtables[rule.mask].maxCount > 0 && c.nRules > 0
    && (ExactMetadata(rule.mask) ==>
          var v := Metadata(rule.flow);
          v in c.partitions && TrackerShape(c.partitions[v]) && TagOf(env, rule.mask) <= c.partitions[v].tags)
  }

  /** classifier_remove. */
  ghost function Remove(env: Env, c: Cls, rule: Rule): Cls
    requires Removable(env, c, rule)
  {
    var m, st := rule.mask, c.subtables[rule.mask];
    var k := PC.IndexOf(c.order, m);
    var c1 := c.(partitions := PartitionsRemove(env, c.partitions, rule),
                 tries := seq(|c.tries|, j requires 0 <= j < |c.tries| => TrieRemove(c.tries[j], st.triePlen[j], rule)),
                 nRules := c.nRules - 1);
    if st.nRules == 1 then
      c1.(subtables := c.subtables - {m}, order := PC.Dropped(c.order, k))
    else
      var st1 := RemoveRule(env, st, rule);
      c1.(subtables := c.subtables[m := st1],
          order := if rule.priority == st.maxPriority && st.maxCount == 1
                   then PC.Lowered(c.order, k, st1.maxPriority) else c.order)
  }

  lemma RemoveReady(env: Env, c: Cls, R: set<Rule>, rule: Rule)
    requires Inv(env, c, R) && rule in R
    ensures Removable(env, c, rule)
  {
    hide SubtableOk, PC.OrderOk, PartitionsOk, TrieOk, Shape, TagOf, ExactMetadata, Metadata;
    InvShape(env, c, R);
    var m := rule.mask;
    assert SubtableOk(env, c.tries, m, c.subtables[m], RulesWith(R, m));
    InSubtable(env, c.tries, m, c.subtables[m], RulesWith(R, m), rule);
    if ExactMetadata(rule.mask) {
      PartitionHasTag(env, c.partitions, R, rule);
    }
  }

  lemma InSubtable(env: Env, tries: seq<ClsTrie>, m: Mask, st: Subtable, S: set<Rule>, rule: Rule)
    requires SubtableOk(env, tries, m, st, S) && rule in S
    ensures SubOk(env, st, S) && rule.flow in st.groups && st.nRules > 0 && st.maxCount > 0
    ensures st.nRules == |S| && st.mask == m && MaxOk(st.maxPriority, st.maxCount, S)
    ensures SubtableShape(st)
  {
    hide IndexOk, PT.Ok, PT.Count, PrefixLen, Canonical, HashUpTo;
  }

  lemma RulesWithRemoved(R: set<Rule>, rule: Rule, m: Mask)
    ensures RulesWith(R - {rule}, m) == if m == rule.mask then RulesWith(R, m) - {rule} else RulesWith(R, m)
  {
  }

  lemma RemovedSubtableOk(env: Env, tries: seq<ClsTrie>, m: Mask, st: Subtable, S: set<Rule>, rule: Rule)
    requires SubtableOk(env, tries, m, st, S) && rule in S && S != {rule}
    ensures rule.flow in st.groups && st.nRules > 1 && st.maxCount > 0 && SubtableShape(st)
    ensures SubtableOk(env, tries, m, RemoveRule(env, st, rule), S - {rule})
    ensures RemoveRule(env, st, rule).tag == st.tag
    ensures var st1 := RemoveRule(env, st, rule);
            if rule.priority == st.maxPriority && st.maxCount == 1 then st1.maxPriority < st.maxPriority
            else st1.maxPriority == st.maxPriority
  {
    hide GroupsOk, IndexOk, PortsOk, PT.Remove, PrefixLen, MaxOf, MaxOk, GroupsRemove, RuleSet, WithPriority, HashUpTo, TagOf, PortsMaskLen;
    InSubtable(env, tries, m, st, S, rule);
    RemoveRuleOk(env, st, S, rule);
    MoreThanOne(S, rule);
    var st1 := RemoveRule(env, st, rule);
    if rule.priority == st.maxPriority && st.maxCount == 1 {
      TopGone(st.maxPriority, S, rule, st1.maxPriority, st1.maxCount);
    }
  }

  lemma MoreThanOne(S: set<Rule>, rule: Rule)
    requires rule in S && S != {rule}
    ensures |S| > 1
  {
    assert S - {rule} != {};
    assert |S - {rule}| == |S| - 1;
  }

  /** Without its only top rule a subtable's top priority drops. */
  lemma TopGone(p: nat, S: set<Rule>, rule: Rule, q: nat, n: nat)
    requires MaxOk(p, 1, S) && rule in S && rule.priority == p && S != {rule} && MaxOk(q, n, S - {rule})
    ensures q < p
  {
    var T := WithPriority(S, p);
    assert rule in T;
    assert |T - {rule}| == 0;
    assert T == {rule};
    var U := WithPriority(S - {rule}, q);
    assert U != {};
    var x :| x in U;
    assert x.priority == p ==> x in T;
  }

  lemma SubtablesRemove(env: Env, subtables: map<Mask, Subtable>, tries: seq<ClsTrie>, R: set<Rule>, rule: Rule,
                        subs: map<Mask, Subtable>, more: seq<ClsTrie>)
    requires SubtablesOk(env, subtables, tries, R) && rule in R
    requires FieldsMatch(tries, more)
    requires if RulesWith(R, rule.mask) == {rule} then subs == subtables - {rule.mask}
             else && rule.mask in subs && subs == subtables[rule.mask := subs[rule.mask]]
                  && SubtableOk(env, tries, rule.mask, subs[rule.mask], RulesWith(R, rule.mask) - {rule})
    ensures SubtablesOk(env, subs, more, R - {rule})
  {
    hide SubtableOk, RulesWith;
    var m := rule.mask;
    InRulesWith(R, rule);
    forall x | x in subs
      ensures RulesWith(R - {rule}, x) != {} && SubtableOk(env, more, x, subs[x], RulesWith(R - {rule}, x))
    {
      RulesWithRemoved(R, rule, x);
      SameFields(env, tries, more, x, subs[x], RulesWith(R - {rule}, x));
    }
    forall r | r in R - {rule} ensures r.mask in subs {
      InRulesWith(R, r);
    }
  }

  lemma InRulesWith(R: set<Rule>, r: Rule)
    requires r in R
    ensures r in RulesWith(R, r.mask)
  {
  }

  /** classifier_remove keeps the invariant and takes out just that rule. */
  lemma RemoveOk(env: Env, c: Cls, R: set<Rule>, rule: Rule)
    requires Inv(env, c, R) && rule in R
    ensures Removable(env, c, rule) && Inv(env, Remove(env, c, rule), R - {rule})
  {
    hide SubtablesOk, PC.OrderOk, PartitionsOk, TrieOk, PartitionsRemove, TrieRemove, OrderMap, SegmentsOk,
         PC.IndexOf, PC.Dropped, PC.Lowered, RemoveRule, Shape, ExactMetadata, Metadata, TagOf;
    RemoveReady(env, c, R, rule);
    var c1 := Remove(env, c, rule);
    PartitionsRemoveOk(env, c.partitions, R, rule);
    forall j | 0 <= j < |c.tries|
      ensures TrieOk(c1.tries[j], R - {rule}) && c1.tries[j].field == c.tries[j].field
    {
      PlenIs(env, c, R, rule.mask, j);
      TrieRemoveField(c.tries[j], PrefixLen(rule.mask, c.tries[j].field), rule);
      TrieRemoveOk(c.tries[j], R, rule);
    }
    RemoveSubtable(env, c, R, rule);
  }

  lemma RemoveKeepsStages(env: Env, st: Subtable, rule: Rule)
    requires rule.flow in st.groups && st.nRules > 0 && st.maxCount > 0 && SubtableShape(st)
    ensures RemoveRule(env, st, rule).indexOfs == st.indexOfs
  {
  }

  lemma TrieRemoveField(t: ClsTrie, plen: nat, rule: Rule)
    requires FieldOk(t.field)
    ensures TrieRemove(t, plen, rule).field == t.field
  {
  }

  lemma PlenIs(env: Env, c: Cls, R: set<Rule>, m: Mask, j: nat)
    requires SubtablesOk(env, c.subtables, c.tries, R) && m in c.subtables && j < |c.tries|
    ensures FieldOk(c.tries[j].field)
    ensures j < |c.subtables[m].triePlen| && c.subtables[m].triePlen[j] == PrefixLen(m, c.tries[j].field)
  {
    hide SubOk, PrefixLen, TagOf;
    assert SubtableOk(env, c.tries, m, c.subtables[m], RulesWith(R, m));
  }

  lemma RemoveSubtable(env: Env, c: Cls, R: set<Rule>, rule: Rule)
    requires Inv(env, c, R) && rule in R && Removable(env, c, rule)
    requires FieldsMatch(c.tries, Remove(env, c, rule).tries)
    ensures var c1 := Remove(env, c, rule);
            && SubtablesOk(env, c1.subtables, c1.tries, R - {rule}) && PC.OrderOk(c1.order, OrderMap(c1.subtables))
            && StagesOk(c1.segments, c1.subtables)
  {
    hide StageOffsets, SubtableOk, PC.OrderOk, PartitionsOk, TrieOk, PartitionsRemove, TrieRemove, OrderMap, SegmentsOk,
         PC.IndexOf, PC.Dropped, PC.Lowered, RemoveRule, Shape, RulesWith, ExactMetadata, Metadata, TagOf, MaxOk, SubOk, SubtableShape;
    var m, st, c1 := rule.mask, c.subtables[rule.mask], Remove(env, c, rule);
    var S := RulesWith(R, m);
    InRulesWith(R, rule);
    InSubtable(env, c.tries, m, st, S, rule);
    OrderMapAt(c.subtables, m);
    if S == {rule} {
      PC.OrderDrop(c.order, OrderMap(c.subtables), m);
      OrderMapDrop(c.subtables, m);
    } else {
      MoreThanOne(S, rule);
      RemovedSubtableOk(env, c.tries, m, st, S, rule);
      var st1 := RemoveRule(env, st, rule);
      OrderMapUpdate(c.subtables, m, st1);
      RemoveKeepsStages(env, st, rule);
      if rule.priority == st.maxPriority && st.maxCount == 1 {
        PC.OrderLower(c.order, OrderMap(c.subtables), m, st1.maxPriority);
      } else {
        OrderMapSame(c.subtables, m, st1);
      }
    }
    SubtablesRemove(env, c.subtables, c.tries, R, rule, c1.subtables, c1.tries);
  }

  lemma OrderMapDrop(subtables: map<Mask, Subtable>, m: Mask)
    ensures OrderMap(subtables - {m}) == OrderMap(subtables) - {m}
  {
  }

  // ------------------------------------------------ every run

  function Init(segments: seq<nat>): Cls {
    Cls(segments, map[], [], map[], [], 0)
  }

  /** classifier_set_prefix_fields leaves tries for the new fields that count
      the present rules, and the subtables' prefix lengths on them. */
  ghost predicate Refielded(c: Cls, fields: seq<Field>, c1: Cls, R: set<Rule>) {
    && (forall fd :: fd in fields ==> FieldOk(fd))
    && |c1.tries| == |fields|
    && (forall j :: 0 <= j < |fields| ==> c1.tries[j].field == fields[j] && TrieOk(c1.tries[j], R))
    && c1 == c.(tries := c1.tries,
                subtables := map m | m in c.subtables ::
                  c.subtables[m].(triePlen := seq(|fields|, j requires 0 <= j < |fields| => PrefixLenOr0(m, fields[j]))))
  }

  function PrefixLenOr0(m: Mask, fd: Field): nat {
    if FieldOk(fd) then PrefixLen(m, fd) else 0
  }

  lemma RefieldedOk(env: Env, c: Cls, R: set<Rule>, fields: seq<Field>, c1: Cls)
    requires Inv(env, c, R) && Refielded(c, fields, c1, R)
    ensures Inv(env, c1, R)
  {
    hide PC.OrderOk, PartitionsOk, TrieOk, SegmentsOk, RulesWith, SubtableOk, PrefixLenOr0;
    forall m | m in c1.subtables ensures RulesWith(R, m) != {} && SubtableOk(env, c1.tries, m, c1.subtables[m], RulesWith(R, m)) {
      SubtableRefielded(env, c.tries, c1.tries, m, c.subtables[m], RulesWith(R, m), c1.subtables[m].triePlen);
    }
    assert OrderMap(c1.subtables) == OrderMap(c.subtables);
  }

  lemma SubtableRefielded(env: Env, tries: seq<ClsTrie>, more: seq<ClsTrie>, m: Mask, st: Subtable, S: set<Rule>, plens: seq<nat>)
    requires SubtableOk(env, tries, m, st, S) && |plens| == |more|
    requires forall j :: 0 <= j < |more| ==> FieldOk(more[j].field) && plens[j] == PrefixLenOr0(m, more[j].field)
    ensures SubtableOk(env, more, m, st.(triePlen := plens), S)
  {
    hide GroupsOk, IndexOk, MaxOk, PortsOk, PortsMaskLen, PrefixLen, TagOf;
  }

  /** One operation on a classifier and on the abstract set of rules. */
  datatype Op = Insert(rule: Rule) | Delete(rule: Rule) | SetPrefixFields(fields: seq<Field>)

  ghost predicate Step(env: Env, c: Cls, R: set<Rule>, op: Op, c1: Cls, R1: set<Rule>) {
    match op
    case Insert(rule) =>
      Shape(c) && Canonical(rule.flow, rule.mask) && c1 == Replace(env, c, rule) && R1 == Replaced(R, rule)
    case Delete(rule) =>
      Removable(env, c, rule) && rule in R && c1 == Remove(env, c, rule) && R1 == R - {rule}
    case SetPrefixFields(fields) =>
      Refielded(c, fields, c1, R) && R1 == R
  }

  ghost predicate Run(env: Env, ops: seq<Op>, states: seq<(Cls, set<Rule>)>, segments: seq<nat>) {
    && |states| == |ops| + 1 && SegmentsOk(segments) && states[0] == (Init(segments), {})
    && forall i :: 0 <= i < |ops| ==> Step(env, states[i].0, states[i].1, ops[i], states[i + 1].0, states[i + 1].1)
  }

  lemma InitOk(env: Env, segments: seq<nat>)
    requires SegmentsOk(segments)
    ensures Inv(env, Init(segments), {})
  {
    hide SegmentsOk, SubtableOk;
    var c := Init(segments);
    assert forall v :: WithMetadata({}, v) == {};
    assert OrderMap(c.subtables) == map[];
  }

  /** Every state of every run satisfies the invariant. */
  lemma {:induction false} RunInv(env: Env, ops: seq<Op>, states: seq<(Cls, set<Rule>)>, segments: seq<nat>, n: nat)
    requires Run(env, ops, states, segments) && n < |states|
    ensures Inv(env, states[n].0, states[n].1)
  {
    hide Inv, Replace, Remove, Refielded, Shape, Removable, Replaced, Canonical, Init, SegmentsOk;
    if n == 0 {
      InitOk(env, segments);
    } else {
      RunInv(env, ops, states, segments, n - 1);
      var (c, R) := states[n - 1];
      assert Step(env, c, R, ops[n - 1], states[n].0, states[n].1);
      match ops[n - 1]
      case Insert(rule) => ReplaceOk(env, c, R, rule);
      case Delete(rule) => RemoveOk(env, c, R, rule);
      case SetPrefixFields(fields) => RefieldedOk(env, c, R, fields, states[n].0);
    }
  }

  // ------------------------------------------------ steps of the operations

  /** What classifier_replace finds before it changes anything. */
  lemma ReplaceParts(env: Env, c: Cls, R: set<Rule>, rule: Rule)
    requires Inv(env, c, R)
    ensures Shape(c)
    ensures var st := SubtableFor(env, c, rule.mask);
            && SubtableShape(st) && |st.triePlen| == |c.tries|
            && (forall i, j :: 0 <= i < j < |st.indexOfs| ==> st.indexOfs[i] < st.indexOfs[j])
    ensures var order := OrderFor(env, c, rule.mask);
            && PC.Sorted(order) && PC.Distinct(order) && PC.IndexOf(order, rule.mask) < |order|
            && order[PC.IndexOf(order, rule.mask)].maxPriority == SubtableFor(env, c, rule.mask).maxPriority
    ensures PartitionsOk(env, c.partitions, R)
  {
    hide SubtableFor, OrderFor, SubtablesOk, PartitionsOk, TrieOk, PrefixLen, TagOf, RulesWith, OrderMap, PC.Sorted, PC.Distinct, PC.Lists, GroupsOk, IndexOk, MaxOk, PortsOk, PortsMaskLen;
    var m := rule.mask;
    InvShape(env, c, R);
    SubtableForOk(env, c, R, m);
    ShapeFor(env, c, R, m);
    OrderForOk(env, c, m);
    var subs := c.subtables[m := SubtableFor(env, c, m)];
    OrderMapAt(subs, m);
    PC.OrderIndex(OrderFor(env, c, m), OrderMap(subs), m);
  }

  method AddToTries(tries: seq<ClsTrie>, plens: seq<nat>, rule: Rule) returns (out: seq<ClsTrie>)
    requires |plens| == |tries| && forall t :: t in tries ==> FieldOk(t.field)
    ensures |out| == |tries| && forall j :: 0 <= j < |tries| ==> out[j] == TrieAdd(tries[j], plens[j], rule)
  {
    hide TrieAdd;
    out := [];
    for i := 0 to |tries|
      invariant |out| == i && forall j :: 0 <= j < i ==> out[j] == TrieAdd(tries[j], plens[j], rule)
    {
      out := out + [TrieAdd(tries[i], plens[i], rule)];
    }
  }

  method RemoveFromTries(tries: seq<ClsTrie>, plens: seq<nat>, rule: Rule) returns (out: seq<ClsTrie>)
    requires |plens| == |tries| && forall t :: t in tries ==> FieldOk(t.field)
    ensures |out| == |tries| && forall j :: 0 <= j < |tries| ==> out[j] == TrieRemove(tries[j], plens[j], rule)
  {
    hide TrieRemove;
    out := [];
    for i := 0 to |tries|
      invariant |out| == i && forall j :: 0 <= j < i ==> out[j] == TrieRemove(tries[j], plens[j], rule)
    {
      out := out + [TrieRemove(tries[i], plens[i], rule)];
    }
  }

  /** create_partition. */
  method CreatePartition(env: Env, partitions: map<seq<Word>, Tracker>, rule: Rule, ghost R: set<Rule>)
    returns (out: map<seq<Word>, Tracker>)
    requires PartitionsOk(env, partitions, R)
    requires forall v :: v in partitions ==> |partitions[v].counts| == N_TAG_BITS
    ensures out == PartitionsAdd(env, partitions, rule)
  {
    hide WithMetadata, WithTagBit, TagOf, AddTag;
    if !ExactMetadata(rule.mask) {
      return partitions;
    }
    var v := Metadata(rule.flow);
    var t := if v in partitions then partitions[v] else TrackerInit();
    assert v in partitions ==> PartitionOk(env, partitions[v], R, v);
    var t1 := TrackerAdd(t, TagOf(env, rule.mask));
    return partitions[v := t1];
  }

  /** Taking a rule's tag out of its partition, which goes when empty. */
  method DropFromPartition(env: Env, partitions: map<seq<Word>, Tracker>, rule: Rule) returns (out: map<seq<Word>, Tracker>)
    requires ExactMetadata(rule.mask) ==>
               var v := Metadata(rule.flow);
               v in partitions && TrackerShape(partitions[v]) && TagOf(env, rule.mask) <= partitions[v].tags
    ensures out == PartitionsRemove(env, partitions, rule)
  {
    hide TagOf, SubTag;
    if !ExactMetadata(rule.mask) {
      return partitions;
    }
    var v := Metadata(rule.flow);
    var t := TrackerSubtract(partitions[v], TagOf(env, rule.mask));
    return if t.tags == {} then partitions - {v} else partitions[v := t];
  }

  /** trie_init: a trie of the present rules' prefixes on a field, the rules
      taken subtable by subtable, in any order. */
  method BuildTrie(env: Env, c: Cls, fd: Field, ghost R: set<Rule>) returns (t: ClsTrie)
    requires Inv(env, c, R) && FieldOk(fd)
    ensures t.field == fd && TrieOk(t, R)
  {
    hide SubOk, SubtableOk, PC.OrderOk, PartitionsOk, TrieOk, PrefixLen, TrieAdd, RulesWith, GroupsOk;
    t := ClsTrie(fd, PT.Nil);
    EmptyTrie(fd);
    var todo := c.subtables.Keys;
    ghost var Done: set<Rule> := {};
    while todo != {}
      invariant todo <= c.subtables.Keys
      invariant Done == set r | r in R && r.mask !in todo
      invariant t.field == fd && TrieOk(t, Done)
      decreases todo
    {
      var m :| m in todo;
      var st := c.subtables[m];
      GroupsOf(env, c, R, m);
      RulesWithIs(R, m, todo);
      var t1 := AddSubtable(env, t, st, Done, RulesWith(R, m));
      todo := todo - {m};
      Done := Done + RulesWith(R, m);
      t := t1;
    }
    assert Done == R;
  }

  lemma EmptyTrie(fd: Field)
    requires FieldOk(fd)
    ensures TrieOk(ClsTrie(fd, PT.Nil), {})
  {
    hide HasPrefix;
    forall q ensures |WithPrefix({}, fd, q)| == 0 {
      assert WithPrefix({}, fd, q) == {};
    }
  }

  lemma GroupsOf(env: Env, c: Cls, R: set<Rule>, m: Mask)
    requires Inv(env, c, R) && m in c.subtables
    ensures GroupsOk(env, m, c.subtables[m].groups, RulesWith(R, m)) && c.subtables[m].mask == m
  {
    hide PC.OrderOk, PartitionsOk, TrieOk, GroupsOk, IndicesOk, MaxOk, PortsOk, PrefixLen, TagOf, RulesWith;
    assert SubtableOk(env, c.tries, m, c.subtables[m], RulesWith(R, m));
  }

  lemma RulesWithIs(R: set<Rule>, m: Mask, todo: set<Mask>)
    requires m in todo
    ensures (set r | r in R && r.mask !in todo) + RulesWith(R, m) == (set r | r in R && r.mask !in todo - {m})
    ensures (set r | r in R && r.mask !in todo) !! RulesWith(R, m)
  {
  }

  method AddSubtable(env: Env, t: ClsTrie, st: Subtable, ghost Done: set<Rule>, ghost S: set<Rule>) returns (t1: ClsTrie)
    requires TrieOk(t, Done) && GroupsOk(env, st.mask, st.groups, S) && Done !! S
    ensures t1.field == t.field && TrieOk(t1, Done + S)
  {
    hide TrieOk, TrieAdd, PrefixLen, Canonical, HashUpTo, Descending;
    TrieField(t, Done);
    var plen := PrefixLen(st.mask, t.field);
    t1 := t;
    var todo := st.groups.Keys;
    ghost var More: set<Rule> := {};
    assert Done + More == Done;
    while todo != {}
      invariant todo <= st.groups.Keys
      invariant More == set r | r in S && r.flow !in todo
      invariant t1.field == t.field && TrieOk(t1, Done + More)
      decreases todo
    {
      var k :| k in todo;
      var list := st.groups[k].rules;
      assert forall r :: r in list <==> r in S && r.flow == k;
      ghost var Next := set r | r in S && r.flow !in todo - {k};
      var i := 0;
      assert Members(list[..0]) == {};
      assert Done + More + {} == Done + More;
      while i < |list|
        invariant i <= |list|
        invariant t1.field == t.field && TrieOk(t1, Done + More + Members(list[..i]))
      {
        ghost var Before := Done + More + Members(list[..i]);
        DistinctList(env, st, S, k, i);
        TrieAddOk(t1, Before, list[i]);
        TrieAddField(t1, plen, list[i]);
        MembersNext(list, i);
        assert Before + {list[i]} == Done + More + Members(list[..i + 1]);
        t1 := TrieAdd(t1, plen, list[i]);
        i := i + 1;
      }
      assert list[..i] == list;
      assert Done + More + Members(list) == Done + Next;
      todo := todo - {k};
      More := Next;
    }
    assert More == S;
  }

  ghost function Members(list: seq<Rule>): set<Rule> {
    set r | r in list
  }

  lemma MembersNext(list: seq<Rule>, i: nat)
    requires i < |list|
    ensures Members(list[..i + 1]) == Members(list[..i]) + {list[i]}
  {
    assert list[..i + 1] == list[..i] + [list[i]];
  }

  lemma DistinctList(env: Env, st: Subtable, S: set<Rule>, k: Flow, i: nat)
    requires GroupsOk(env, st.mask, st.groups, S) && k in st.groups && i < |st.groups[k].rules|
    ensures st.groups[k].rules[i] !in st.groups[k].rules[..i]
  {
    hide Canonical, HashUpTo;
  }

  /** classifier_replace spelled out in terms of what its steps compute. */
  lemma ReplaceIs(env: Env, c: Cls, R: set<Rule>, rule: Rule, ts: seq<ClsTrie>)
    requires Inv(env, c, R) && Shape(c) && SubtableShape(SubtableFor(env, c, rule.mask))
    requires PC.IndexOf(OrderFor(env, c, rule.mask), rule.mask) < |OrderFor(env, c, rule.mask)|
    requires var st := SubtableFor(env, c, rule.mask);
             |ts| == |c.tries| == |st.triePlen| && forall j :: 0 <= j < |ts| ==> ts[j] == TrieAdd(c.tries[j], st.triePlen[j], rule)
    ensures var st, order := SubtableFor(env, c, rule.mask), OrderFor(env, c, rule.mask);
            var subs := c.subtables[rule.mask := AddRule(env, st, rule)];
            var order1 := if rule.priority > st.maxPriority
                          then PC.Raised(order, PC.IndexOf(order, rule.mask), rule.priority) else order;
            && (DisplacedBy(env, c, rule).Some? ==> Replace(env, c, rule) == c.(subtables := subs))
            && (DisplacedBy(env, c, rule).None? ==>
                  Replace(env, c, rule) == Cls(c.segments, subs, order1, PartitionsAdd(env, c.partitions, rule), ts, c.nRules + 1))
  {
    hide Inv, SubtableFor, OrderFor, AddRule, DisplacedBy, PC.Raised, PC.IndexOf, PartitionsAdd, TrieAdd, Shape, SubtableShape;
    assert DisplacedBy(env, c, rule).None? ==> Replace(env, c, rule).tries == ts;
  }

  /** classifier_remove spelled out in the same way. */
  lemma RemoveIs(env: Env, c: Cls, rule: Rule, ts: seq<ClsTrie>)
    requires Removable(env, c, rule) && SubtableShape(c.subtables[rule.mask])
    requires var st := c.subtables[rule.mask];
             |ts| == |c.tries| == |st.triePlen| && forall j :: 0 <= j < |ts| ==> ts[j] == TrieRemove(c.tries[j], st.triePlen[j], rule)
    ensures var st, k := c.subtables[rule.mask], PC.IndexOf(c.order, rule.mask);
            var parts := PartitionsRemove(env, c.partitions, rule);
            && k < |c.order|
            && (st.nRules == 1 ==>
                  Remove(env, c, rule) == Cls(c.segments, c.subtables - {rule.mask}, PC.Dropped(c.order, k), parts, ts, c.nRules - 1))
            && (st.nRules != 1 ==>
                  var st1 := RemoveRule(env, st, rule);
                  var order1 := if rule.priority == st.maxPriority && st.maxCount == 1
                                then PC.Lowered(c.order, k, st1.maxPriority) else c.order;
                  Remove(env, c, rule) == Cls(c.segments, c.subtables[rule.mask := st1], order1, parts, ts, c.nRules - 1))
  {
    hide RemoveRule, PC.Lowered, PC.Dropped, PC.IndexOf, PartitionsRemove, TrieRemove, SubtableShape, TagOf, ExactMetadata, Metadata;
    assert Remove(env, c, rule).tries == ts;
  }
}
