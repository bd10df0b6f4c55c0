/** One subtable of the classifier: all rules with the same mask. */
module Subtables {
  import opened Options
  import opened Words
  import opened Flows
  import opened Tags
  import PT = PrefixTrie

  /** 'id' stands for the identity of the rule object. */
  datatype Rule = Rule(id: nat, flow: Flow, mask: Mask, priority: nat)

  /** Rules that differ only in priority, highest first, with the hash under
      which the first of them is kept in the subtable's table. */
  datatype Group = Group(hash: Word, rules: seq<Rule>)

  datatype Subtable = Subtable(
    mask: Mask,
    groups: map<Flow, Group>,
    nRules: nat,
    maxPriority: nat,
    maxCount: nat,
    tag: Tag,
    indexOfs: seq<nat>,
    indices: seq<set<(Word, Rule)>>,
    triePlen: seq<nat>,
    portsMaskLen: nat,
    portsTrie: PT.Trie)

  // ------------------------------------------------ identical rules

  predicate Descending(rules: seq<Rule>) {
    forall i, j :: 0 <= i < j < |rules| ==> rules[i].priority > rules[j].priority
  }

  /** The rule of the same priority, which the new one takes the place of. */
  function Displaced(rules: seq<Rule>, rule: Rule): Option<Rule> {
    if rules == [] || rule.priority > rules[0].priority then None
    else if rule.priority == rules[0].priority then Some(rules[0])
    else Displaced(rules[1..], rule)
  }

  function InsertSorted(rules: seq<Rule>, rule: Rule): seq<Rule> {
    if rules == [] || rule.priority > rules[0].priority then [rule] + rules
    else if rule.priority == rules[0].priority then [rule] + rules[1..]
    else [rules[0]] + InsertSorted(rules[1..], rule)
  }

  function RemoveFrom(rules: seq<Rule>, r: Rule): seq<Rule> {
    if rules == [] then [] else if rules[0] == r then rules[1..] else [rules[0]] + RemoveFrom(rules[1..], r)
  }

  /** The scan of the list of identical rules in insert_rule. */
  method InsertIntoList(rules: seq<Rule>, rule: Rule) returns (out: seq<Rule>, displaced: Option<Rule>)
    ensures out == InsertSorted(rules, rule) && displaced == Displaced(rules, rule)
  {
    hide InsertSorted, Displaced;
    var i := 0;
    assert rules[0..] == rules;
    while i < |rules|
      invariant i <= |rules|
      invariant InsertSorted(rules, rule) == rules[..i] + InsertSorted(rules[i..], rule)
      invariant Displaced(rules, rule) == Displaced(rules[i..], rule)
    {
      ScanStep(rules[i..], rule);
      if rule.priority >= rules[i].priority {
        if rule.priority == rules[i].priority {
          return rules[..i] + ([rule] + rules[i..][1..]), Some(rules[i]);
        } else {
          return rules[..i] + ([rule] + rules[i..]), None;
        }
      }
      assert rules[i..][1..] == rules[i + 1..];
      assert rules[..i + 1] == rules[..i] + [rules[i]];
      i := i + 1;
    }
    ScanStep([], rule);
    assert rules[i..] == [];
    return rules[..i] + [rule], None;
  }

  lemma ScanStep(list: seq<Rule>, rule: Rule)
    ensures list == [] ==> InsertSorted(list, rule) == [rule] && Displaced(list, rule) == None
    ensures list != [] && rule.priority > list[0].priority
        ==> InsertSorted(list, rule) == [rule] + list && Displaced(list, rule) == None
    ensures list != [] && rule.priority == list[0].priority
        ==> InsertSorted(list, rule) == [rule] + list[1..] && Displaced(list, rule) == Some(list[0])
    ensures list != [] && rule.priority < list[0].priority
        ==> InsertSorted(list, rule) == [list[0]] + InsertSorted(list[1..], rule) && Displaced(list, rule) == Displaced(list[1..], rule)
  {
  }

  lemma {:induction false} DisplacedSpec(rules: seq<Rule>, rule: Rule)
    requires Descending(rules)
    ensures Displaced(rules, rule).Some? ==>
              Displaced(rules, rule).value in rules && Displaced(rules, rule).value.priority == rule.priority
    ensures Displaced(rules, rule).None? ==> forall r :: r in rules ==> r.priority != rule.priority
  {
    if rules != [] {
      TailBelow(rules);
      if rule.priority < rules[0].priority {
        DisplacedSpec(rules[1..], rule);
      }
    }
  }

  lemma TailBelow(rules: seq<Rule>)
    requires rules != [] && Descending(rules)
    ensures Descending(rules[1..])
    ensures forall r :: r in rules[1..] ==> r.priority < rules[0].priority
    ensures forall r :: r in rules <==> r == rules[0] || r in rules[1..]
  {
    assert rules == [rules[0]] + rules[1..];
  }

  lemma ConsDescending(x: Rule, t: seq<Rule>)
    requires Descending(t) && forall r :: r in t ==> r.priority < x.priority
    ensures Descending([x] + t)
    ensures forall r :: r in [x] + t <==> r == x || r in t
  {
  }

  lemma {:induction false} InsertSortedSpec(rules: seq<Rule>, rule: Rule, r: Rule)
    requires Descending(rules)
    ensures Descending(InsertSorted(rules, rule)) && InsertSorted(rules, rule) != []
    ensures r in InsertSorted(rules, rule) <==> r == rule || (r in rules && r.priority != rule.priority)
  {
    hide Descending;
    var out := InsertSorted(rules, rule);
    if rules == [] {
      assert Descending([]) by { EmptyDescending(); }
      ConsDescending(rule, []);
      assert out == [rule] + [];
    } else {
      TailBelow(rules);
      if rule.priority > rules[0].priority {
        ConsDescending(rule, rules);
      } else if rule.priority == rules[0].priority {
        ConsDescending(rule, rules[1..]);
      } else {
        var t := rules[1..];
        forall x ensures x in InsertSorted(t, rule) <==> x == rule || (x in t && x.priority != rule.priority) {
          InsertSortedSpec(t, rule, x);
        }
        InsertSortedSpec(t, rule, r);
        ConsDescending(rules[0], InsertSorted(t, rule));
      }
    }
  }

  lemma EmptyDescending()
    ensures Descending([])
  {
  }

  lemma {:induction false} RemoveFromSpec(rules: seq<Rule>, r: Rule)
    requires Descending(rules)
    ensures Descending(RemoveFrom(rules, r))
    ensures forall x :: x in RemoveFrom(rules, r) <==> x in rules && x != r
  {
    if rules != [] {
      assert rules == [rules[0]] + rules[1..];
      if rules[0] == r {
        assert forall x :: x in rules[1..] ==> x.priority < rules[0].priority;
      } else {
        RemoveFromSpec(rules[1..], r);
        assert forall x :: x in RemoveFrom(rules[1..], r) ==> x in rules[1..] && x.priority < rules[0].priority;
      }
    }
  }

  // ------------------------------------------------ what a subtable holds

  /** The table of heads holds exactly the rules of 'S'. */
  ghost predicate GroupsOk(env: Env, mask: Mask, groups: map<Flow, Group>, S: set<Rule>) {
    && (forall r :: r in S ==>
          r.mask == mask && Canonical(r.flow, mask) && r.flow in groups && r in groups[r.flow].rules)
    && (forall k :: k in groups ==>
          && groups[k].rules != [] && Descending(groups[k].rules)
          && groups[k].hash == HashUpTo(env, k, mask, FLOW_U32S)
          && forall r :: r in groups[k].rules ==> r in S && r.flow == k)
  }

  /** Index 'i' holds each rule under its hash up to the i-th boundary. */
  ghost predicate IndicesOk(env: Env, st: Subtable, S: set<Rule>) {
    && |st.indices| == |st.indexOfs|
    && (forall i :: 0 <= i < |st.indexOfs| ==> 0 < st.indexOfs[i] <= FLOW_U32S)
    && (forall i, j :: 0 <= i < j < |st.indexOfs| ==> st.indexOfs[i] < st.indexOfs[j])
    && (forall i :: 0 <= i < |st.indices| ==> IndexOk(env, st.mask, st.indexOfs[i], st.indices[i], S))
  }

  ghost predicate IndexOk(env: Env, mask: Mask, ofs: nat, index: set<(Word, Rule)>, S: set<Rule>)
    requires ofs <= FLOW_U32S
  {
    && (forall p :: p in index ==> p.1 in S && p.0 == HashUpTo(env, p.1.flow, mask, ofs))
    && (forall r :: r in S ==> (HashUpTo(env, r.flow, mask, ofs), r) in index)
  }

  ghost function WithPriority(S: set<Rule>, p: nat): set<Rule> {
    set r | r in S && r.priority == p
  }

  /** 'p' is the highest priority in 'S' and 'n' rules have it. */
  ghost predicate MaxOk(p: nat, n: nat, S: set<Rule>) {
    && (forall r :: r in S ==> r.priority <= p)
    && n == |WithPriority(S, p)|
    && (S == {} ==> p == 0)
    && (S != {} ==> n > 0)
  }

  function MaskedPorts(r: Rule): Word {
    And(r.flow[TP_PORTS_OFS32], r.mask[TP_PORTS_OFS32])
  }

  /** The ports prefix under which a rule is kept in the ports trie. */
  function PortsBits(r: Rule, len: nat): seq<bool>
    requires len <= 32
  {
    Bits([MaskedPorts(r)])[..len]
  }

  ghost function WithPorts(S: set<Rule>, len: nat, q: seq<bool>): set<Rule>
    requires len <= 32
  {
    set r | r in S && PortsBits(r, len) == q
  }

  ghost predicate PortsOk(trie: PT.Trie, len: nat, S: set<Rule>) {
    && len <= 32 && PT.Ok(trie, true, 32)
    && (len == 0 ==> trie == PT.Nil)
    && (len > 0 ==> forall q :: PT.Count(trie, q) == |WithPorts(S, len, q)|)
  }

  function PortsMaskLen(mask: Mask): (n: nat)
    ensures n <= 32 && (n > 0 ==> mask[TP_PORTS_OFS32][n - 1]) && forall j :: n <= j < 32 ==> !mask[TP_PORTS_OFS32][j]
  {
    32 - TrailingZeros(mask[TP_PORTS_OFS32])
  }

  /** The subtable holds exactly the rules of 'S', in every index. */
  ghost predicate SubOk(env: Env, st: Subtable, S: set<Rule>) {
    && GroupsOk(env, st.mask, st.groups, S)
    && IndicesOk(env, st, S)
    && MaxOk(st.maxPriority, st.maxCount, S)
    && st.nRules == |S|
    && st.portsMaskLen == PortsMaskLen(st.mask)
    && PortsOk(st.portsTrie, st.portsMaskLen, S)
  }

  // ------------------------------------------------ adding a rule

  predicate SameKey(a: Rule, b: Rule) {
    a.mask == b.mask && a.flow == b.flow && a.priority == b.priority
  }

  /** The rules after 'rule' took the place of any identical one. */
  ghost function Replaced(S: set<Rule>, rule: Rule): set<Rule> {
    (set r | r in S && !SameKey(r, rule)) + {rule}
  }

  function OldList(env: Env, st: Subtable, rule: Rule): seq<Rule> {
    var hash := HashUpTo(env, rule.flow, st.mask, FLOW_U32S);
    if rule.flow in st.groups && st.groups[rule.flow].hash == hash then st.groups[rule.flow].rules else []
  }

  function IndexAdd(env: Env, mask: Mask, ofs: nat, index: set<(Word, Rule)>, rule: Rule, old_: Option<Rule>): set<(Word, Rule)>
    requires ofs <= FLOW_U32S
  {
    var more := index + {(HashUpTo(env, rule.flow, mask, ofs), rule)};
    match old_
    case None => more
    case Some(o) => if o == rule then more else more - {(HashUpTo(env, o.flow, mask, ofs), o)}
  }

  predicate Boundaries(ofs: seq<nat>) {
    forall i :: 0 <= i < |ofs| ==> 0 < ofs[i] <= FLOW_U32S
  }

  predicate SubtableShape(st: Subtable) {
    |st.indices| == |st.indexOfs| && Boundaries(st.indexOfs) && st.portsMaskLen <= 32
  }

  /** insert_rule together with the bookkeeping classifier_replace does on
      the subtable. */
  function AddRule(env: Env, st: Subtable, rule: Rule): Subtable
    requires SubtableShape(st)
  {
    var list := OldList(env, st, rule);
    var old_ := Displaced(list, rule);
    var st1 := st.(
      groups := st.groups[rule.flow := Group(HashUpTo(env, rule.flow, st.mask, FLOW_U32S), InsertSorted(list, rule))],
      indices := seq(|st.indices|, i requires 0 <= i < |st.indices| =>
                   IndexAdd(env, st.mask, st.indexOfs[i], st.indices[i], rule, old_)));
    if old_.Some? then st1
    else
      st1.(nRules := st.nRules + 1,
           maxPriority := if rule.priority > st.maxPriority then rule.priority else st.maxPriority,
           maxCount := if rule.priority == st.maxPriority then st.maxCount + 1
                       else if rule.priority > st.maxPriority then 1 else st.maxCount,
           portsTrie := if st.portsMaskLen == 0 then st.portsTrie
                        else PT.Insert(st.portsTrie, [MaskedPorts(rule)], 0, st.portsMaskLen))
  }

  lemma OldListSpec(env: Env, st: Subtable, S: set<Rule>, rule: Rule)
    requires GroupsOk(env, st.mask, st.groups, S)
    ensures OldList(env, st, rule) == if rule.flow in st.groups then st.groups[rule.flow].rules else []
    ensures Descending(OldList(env, st, rule))
    ensures forall r :: r in OldList(env, st, rule) <==> r in S && r.flow == rule.flow
  {
    hide HashUpTo, Canonical;
    assert rule.flow !in st.groups ==> forall r :: r in S ==> r.flow != rule.flow;
  }

  /** The displaced rule is the one identical rule of the subtable, if any. */
  lemma DisplacedIsSameKey(env: Env, st: Subtable, S: set<Rule>, rule: Rule)
    requires GroupsOk(env, st.mask, st.groups, S) && rule.mask == st.mask
    ensures var old_ := Displaced(OldList(env, st, rule), rule);
            && (old_.Some? ==> old_.value in S && SameKey(old_.value, rule))
            && (forall r :: r in S && SameKey(r, rule) ==> old_ == Some(r))
  {
    hide OldList, GroupsOk;
    OldListSpec(env, st, S, rule);
    var list := OldList(env, st, rule);
    DisplacedSpec(list, rule);
    GroupMasks(env, st, S);
    forall r | r in S && SameKey(r, rule) ensures Displaced(list, rule) == Some(r) {
      assert r in list;
      SamePriorityInList(list, r, Displaced(list, rule).value);
    }
  }

  lemma GroupMasks(env: Env, st: Subtable, S: set<Rule>)
    requires GroupsOk(env, st.mask, st.groups, S)
    ensures forall r :: r in S ==> r.mask == st.mask && Canonical(r.flow, st.mask)
  {
  }

  lemma SamePriorityInList(list: seq<Rule>, a: Rule, b: Rule)
    requires Descending(list) && a in list && b in list && a.priority == b.priority
    ensures a == b
  {
    var i :| 0 <= i < |list| && list[i] == a;
    var j :| 0 <= j < |list| && list[j] == b;
  }

  lemma GroupsAdd(env: Env, st: Subtable, S: set<Rule>, rule: Rule)
    requires GroupsOk(env, st.mask, st.groups, S) && rule.mask == st.mask && Canonical(rule.flow, st.mask)
    ensures var g := Group(HashUpTo(env, rule.flow, st.mask, FLOW_U32S), InsertSorted(OldList(env, st, rule), rule));
            GroupsOk(env, st.mask, st.groups[rule.flow := g], Replaced(S, rule))
  {
    hide HashUpTo, Canonical, OldList, InsertSorted;
    var list := OldList(env, st, rule);
    var out := InsertSorted(list, rule);
    OldListSpec(env, st, S, rule);
    InsertSortedSpec(list, rule, rule);
    forall r ensures r in out <==> r == rule || (r in list && r.priority != rule.priority) {
      InsertSortedSpec(list, rule, r);
    }
    var T := Replaced(S, rule);
    forall r ensures r in out <==> r in T && r.flow == rule.flow { }
  }

  lemma IndexAddOk(env: Env, mask: Mask, ofs: nat, index: set<(Word, Rule)>, S: set<Rule>, rule: Rule, old_: Option<Rule>)
    requires ofs <= FLOW_U32S && IndexOk(env, mask, ofs, index, S)
    requires old_.Some? ==> old_.value in S && SameKey(old_.value, rule)
    requires forall r :: r in S && SameKey(r, rule) ==> old_ == Some(r)
    ensures IndexOk(env, mask, ofs, IndexAdd(env, mask, ofs, index, rule, old_), Replaced(S, rule))
  {
    hide HashUpTo;
  }

  lemma WithPriorityAdd(S: set<Rule>, x: Rule, p: nat)
    requires x !in S
    ensures WithPriority(S + {x}, p) == WithPriority(S, p) + if x.priority == p then {x} else {}
    ensures |WithPriority(S + {x}, p)| == |WithPriority(S, p)| + if x.priority == p then 1 else 0
  {
    assert WithPriority(S + {x}, p) == WithPriority(S, p) + if x.priority == p then {x} else {};
  }

  lemma NoneAbove(p: nat, n: nat, S: set<Rule>, q: nat)
    requires MaxOk(p, n, S) && q > p
    ensures WithPriority(S, q) == {}
  {
  }

  lemma MaxAdd(p: nat, n: nat, S: set<Rule>, rule: Rule)
    requires MaxOk(p, n, S) && rule !in S
    ensures MaxOk(if rule.priority > p then rule.priority else p,
                  if rule.priority == p then n + 1 else if rule.priority > p then 1 else n,
                  S + {rule})
  {
    hide WithPriority;
    WithPriorityAdd(S, rule, p);
    if rule.priority > p {
      NoneAbove(p, n, S, rule.priority);
      WithPriorityAdd(S, rule, rule.priority);
    }
  }

  lemma SwapSize(A: set<Rule>, B: set<Rule>, o: Rule, rule: Rule)
    requires o in A && (rule in A ==> rule == o) && B == A - {o} + {rule}
    ensures |B| == |A|
  {
    var C := A - {o};
    assert A == C + {o};
  }

  lemma MaxReplace(p: nat, n: nat, S: set<Rule>, rule: Rule, o: Rule)
    requires MaxOk(p, n, S) && o in S && SameKey(o, rule)
    requires forall r :: r in S && SameKey(r, rule) ==> r == o
    ensures MaxOk(p, n, Replaced(S, rule)) && |Replaced(S, rule)| == |S|
  {
    hide SameKey, Replaced;
    var T := Replaced(S, rule);
    SamePriority(o, rule);
    assert rule in S ==> rule == o;
    ReplacedSwap(S, rule, o);
    SwapSize(S, T, o, rule);
    WithPrioritySwap(S, T, o, rule, p);
  }

  lemma WithPrioritySwap(S: set<Rule>, T: set<Rule>, o: Rule, rule: Rule, p: nat)
    requires o in S && (rule in S ==> rule == o) && T == S - {o} + {rule} && o.priority == rule.priority
    ensures |WithPriority(T, p)| == |WithPriority(S, p)|
  {
    if rule.priority == p {
      SwapSize(WithPriority(S, p), WithPriority(T, p), o, rule);
    } else {
      assert WithPriority(T, p) == WithPriority(S, p);
    }
  }

  lemma SamePriority(a: Rule, b: Rule)
    requires SameKey(a, b)
    ensures a.priority == b.priority && MaskedPorts(a) == MaskedPorts(b) && SameKey(b, b)
  {
  }

  lemma WithPortsAdd(S: set<Rule>, x: Rule, len: nat, q: seq<bool>)
    requires x !in S && len <= 32
    ensures |WithPorts(S + {x}, len, q)| == |WithPorts(S, len, q)| + if PortsBits(x, len) == q then 1 else 0
  {
    hide PortsBits;
    assert WithPorts(S + {x}, len, q) == WithPorts(S, len, q) + if PortsBits(x, len) == q then {x} else {};
  }

  lemma PortsAdd(trie: PT.Trie, len: nat, S: set<Rule>, rule: Rule)
    requires PortsOk(trie, len, S) && len > 0 && rule !in S
    ensures PortsOk(PT.Insert(trie, [MaskedPorts(rule)], 0, len), len, S + {rule})
  {
    hide PT.Insert, PT.Ok, PT.Count, Bits, WithPorts;
    var pr := [MaskedPorts(rule)];
    PT.InsertSpec(trie, true, pr, 0, len);
    var u := PT.Insert(trie, pr, 0, len);
    assert PT.Rest(pr, 0, len) == PortsBits(rule, len);
    forall q ensures PT.Count(u, q) == |WithPorts(S + {rule}, len, q)| {
      WithPortsAdd(S, rule, len, q);
    }
  }

  lemma PortsReplace(trie: PT.Trie, len: nat, S: set<Rule>, rule: Rule, o: Rule)
    requires PortsOk(trie, len, S) && o in S && SameKey(o, rule) && (rule in S ==> rule == o)
    ensures PortsOk(trie, len, S - {o} + {rule})
  {
    hide PT.Ok, PT.Count, Bits, SameKey, MaskedPorts;
    SamePriority(o, rule);
    if len > 0 {
      forall q ensures PT.Count(trie, q) == |WithPorts(S - {o} + {rule}, len, q)| {
        if PortsBits(o, len) == q {
          SwapSize(WithPorts(S, len, q), WithPorts(S - {o} + {rule}, len, q), o, rule);
        } else {
          assert WithPorts(S - {o} + {rule}, len, q) == WithPorts(S, len, q);
        }
      }
    }
  }

  /** insert_rule keeps every index of the subtable in step. */
  lemma AddRuleOk(env: Env, st: Subtable, S: set<Rule>, rule: Rule)
    requires SubOk(env, st, S) && rule.mask == st.mask && Canonical(rule.flow, st.mask)
    ensures SubOk(env, AddRule(env, st, rule), Replaced(S, rule))
  {
    hide GroupsOk, IndexOk, MaxOk, PortsOk, OldList, Displaced, InsertSorted, IndexAdd, Canonical, HashUpTo, PortsMaskLen, PT.Insert, Replaced;
    var old_ := Displaced(OldList(env, st, rule), rule);
    var st1 := AddRule(env, st, rule);
    var T := Replaced(S, rule);
    DisplacedIsSameKey(env, st, S, rule);
    GroupsAdd(env, st, S, rule);
    forall i | 0 <= i < |st.indices| ensures IndexOk(env, st.mask, st1.indexOfs[i], st1.indices[i], T) {
      IndexAddOk(env, st.mask, st.indexOfs[i], st.indices[i], S, rule, old_);
    }
    if old_.Some? {
      MaxReplace(st.maxPriority, st.maxCount, S, rule, old_.value);
      PortsReplace(st.portsTrie, st.portsMaskLen, S, rule, old_.value);
      ReplacedSwap(S, rule, old_.value);
    } else {
      ReplacedNew(S, rule);
      MaxAdd(st.maxPriority, st.maxCount, S, rule);
      if st.portsMaskLen > 0 {
        PortsAdd(st.portsTrie, st.portsMaskLen, S, rule);
      } else {
        PortsNone(st.portsTrie, S, T);
      }
    }
  }

  lemma PortsNone(trie: PT.Trie, S: set<Rule>, T: set<Rule>)
    requires PortsOk(trie, 0, S)
    ensures PortsOk(trie, 0, T)
  {
  }

  lemma ReplacedSwap(S: set<Rule>, rule: Rule, o: Rule)
    requires o in S && SameKey(o, rule) && forall r :: r in S && SameKey(r, rule) ==> r == o
    ensures Replaced(S, rule) == S - {o} + {rule}
  {
  }

  lemma ReplacedNew(S: set<Rule>, rule: Rule)
    requires forall r :: r in S ==> !SameKey(r, rule)
    ensures Replaced(S, rule) == S + {rule} && rule !in S && |Replaced(S, rule)| == |S| + 1
  {
    assert Replaced(S, rule) == S + {rule};
  }

  // ------------------------------------------------ removing a rule

  /** Highest priority in 'S' and how many rules have it: what the scan over
      the heads after a removal computes. */
  ghost function MaxOf(S: set<Rule>): (p: nat)
    ensures S != {} ==> (forall r :: r in S ==> r.priority <= p) && exists r :: r in S && r.priority == p
    ensures S == {} ==> p == 0
    decreases |S|
  {
    if S == {} then 0
    else
      var x :| x in S;
      var q := MaxOf(S - {x});
      if x.priority > q then x.priority else q
  }

  lemma MaxUnique(p: nat, n: nat, S: set<Rule>)
    requires MaxOk(p, n, S)
    ensures p == MaxOf(S) && n == |WithPriority(S, MaxOf(S))|
  {
    if S != {} {
      assert WithPriority(S, p) != {};
      var r :| r in WithPriority(S, p);
      var x :| x in S && x.priority == MaxOf(S);
    }
  }

  lemma MaxOfOk(S: set<Rule>)
    ensures MaxOk(MaxOf(S), |WithPriority(S, MaxOf(S))|, S)
  {
    if S != {} {
      var r :| r in S && r.priority == MaxOf(S);
      assert r in WithPriority(S, MaxOf(S));
    }
  }

  ghost function RuleSet(groups: map<Flow, Group>): set<Rule> {
    set k, r | k in groups && r in groups[k].rules :: r
  }

  function GroupsRemove(groups: map<Flow, Group>, rule: Rule): map<Flow, Group>
    requires rule.flow in groups
  {
    var list := RemoveFrom(groups[rule.flow].rules, rule);
    if list == [] then groups - {rule.flow} else groups[rule.flow := Group(groups[rule.flow].hash, list)]
  }

  /** What classifier_remove does to a subtable that keeps other rules. */
  ghost function RemoveRule(env: Env, st: Subtable, rule: Rule): Subtable
    requires rule.flow in st.groups && st.nRules > 0 && st.maxCount > 0
    requires SubtableShape(st)
  {
    var groups := GroupsRemove(st.groups, rule);
    var top := rule.priority == st.maxPriority;
    var rest := RuleSet(groups);
    st.(groups := groups,
        indices := seq(|st.indices|, i requires 0 <= i < |st.indices| =>
                     st.indices[i] - {(HashUpTo(env, rule.flow, st.mask, st.indexOfs[i]), rule)}),
        nRules := st.nRules - 1,
        maxPriority := if top && st.maxCount == 1 then MaxOf(rest) else st.maxPriority,
        maxCount := if top && st.maxCount == 1 then |WithPriority(rest, MaxOf(rest))|
                    else if top then st.maxCount - 1 else st.maxCount,
        portsTrie := if st.portsMaskLen == 0 then st.portsTrie
                     else PT.Remove(st.portsTrie, [MaskedPorts(rule)], 0, st.portsMaskLen).trie)
  }

  lemma RuleSetIs(env: Env, mask: Mask, groups: map<Flow, Group>, S: set<Rule>)
    requires GroupsOk(env, mask, groups, S)
    ensures RuleSet(groups) == S
  {
  }

  lemma GroupsRemoveOk(env: Env, st: Subtable, S: set<Rule>, rule: Rule)
    requires GroupsOk(env, st.mask, st.groups, S) && rule in S
    ensures GroupsOk(env, st.mask, GroupsRemove(st.groups, rule), S - {rule})
  {
    hide HashUpTo, Canonical;
    var list := st.groups[rule.flow].rules;
    RemoveFromSpec(list, rule);
    var out := RemoveFrom(list, rule);
    forall r ensures r in out <==> r in S - {rule} && r.flow == rule.flow { }
  }

  lemma IndexRemoveOk(env: Env, mask: Mask, ofs: nat, index: set<(Word, Rule)>, S: set<Rule>, rule: Rule)
    requires ofs <= FLOW_U32S && IndexOk(env, mask, ofs, index, S)
    ensures IndexOk(env, mask, ofs, index - {(HashUpTo(env, rule.flow, mask, ofs), rule)}, S - {rule})
  {
    hide HashUpTo;
  }

  lemma MaxRemove(p: nat, n: nat, S: set<Rule>, rule: Rule)
    requires MaxOk(p, n, S) && rule in S && S != {rule}
    requires !(rule.priority == p && n == 1)
    ensures MaxOk(p, if rule.priority == p then n - 1 else n, S - {rule})
  {
    hide WithPriority;
    var T := S - {rule};
    assert T + {rule} == S;
    WithPriorityAdd(T, rule, p);
  }

  lemma PortsRemove(trie: PT.Trie, len: nat, S: set<Rule>, rule: Rule)
    requires PortsOk(trie, len, S) && len > 0 && rule in S
    ensures PortsOk(PT.Remove(trie, [MaskedPorts(rule)], 0, len).trie, len, S - {rule})
    ensures PT.Remove(trie, [MaskedPorts(rule)], 0, len).found
  {
    hide PT.Remove, PT.Ok, PT.Count, Bits, WithPorts;
    var pr := [MaskedPorts(rule)];
    PT.RemoveSpec(trie, true, pr, 0, len);
    var u := PT.Remove(trie, pr, 0, len).trie;
    var T := S - {rule};
    assert T + {rule} == S;
    assert PT.Rest(pr, 0, len) == PortsBits(rule, len);
    WithPortsAdd(T, rule, len, PortsBits(rule, len));
    forall q ensures PT.Count(u, q) == |WithPorts(T, len, q)| {
      WithPortsAdd(T, rule, len, q);
    }
  }

  /** Removing a rule keeps every index of the subtable in step. */
  lemma RemoveRuleOk(env: Env, st: Subtable, S: set<Rule>, rule: Rule)
    requires SubOk(env, st, S) && rule in S && S != {rule}
    ensures rule.flow in st.groups && st.nRules > 0 && st.maxCount > 0
    ensures SubOk(env, RemoveRule(env, st, rule), S - {rule})
  {
    hide GroupsOk, IndexOk, MaxOf, MaxOk, PortsOk, HashUpTo, PortsMaskLen, PT.Remove, GroupsRemove, RuleSet, WithPriority;
    MaxPositive(st.maxPriority, st.maxCount, S);
    RuleInGroup(env, st, S, rule);
    var T := S - {rule};
    var st1 := RemoveRule(env, st, rule);
    GroupsRemoveOk(env, st, S, rule);
    RuleSetIs(env, st.mask, st1.groups, T);
    forall i | 0 <= i < |st.indices| ensures IndexOk(env, st.mask, st1.indexOfs[i], st1.indices[i], T) {
      IndexRemoveOk(env, st.mask, st.indexOfs[i], st.indices[i], S, rule);
    }
    if rule.priority == st.maxPriority && st.maxCount == 1 {
      MaxOfOk(T);
    } else {
      MaxRemove(st.maxPriority, st.maxCount, S, rule);
    }
    if st.portsMaskLen > 0 {
      PortsRemove(st.portsTrie, st.portsMaskLen, S, rule);
    } else {
      PortsNone(st.portsTrie, S, T);
    }
  }

  lemma RuleInGroup(env: Env, st: Subtable, S: set<Rule>, rule: Rule)
    requires GroupsOk(env, st.mask, st.groups, S) && rule in S
    ensures rule.flow in st.groups
  {
  }

  lemma MaxPositive(p: nat, n: nat, S: set<Rule>)
    requires MaxOk(p, n, S) && S != {}
    ensures n > 0
  {
  }

  /** The scan over the heads in update_subtables_after_removal, in whatever
      order the hash table yields them. */
  method HighestHead(env: Env, mask: Mask, groups: map<Flow, Group>, ghost S: set<Rule>) returns (p: nat, n: nat)
    requires GroupsOk(env, mask, groups, S)
    ensures p == MaxOf(S) && n == |WithPriority(S, MaxOf(S))|
  {
    hide Canonical, HashUpTo, MaxOf;
    p, n := 0, 0;
    var todo := groups.Keys;
    ghost var Seen: set<Rule> := {};
    while todo != {}
      invariant todo <= groups.Keys
      invariant Seen == set r | r in S && r.flow !in todo
      invariant MaxOk(p, n, Seen)
      decreases todo
    {
      var k :| k in todo;
      var head := groups[k].rules[0];
      ghost var Next := set r | r in S && r.flow !in todo - {k};
      HeadCounts(groups[k].rules, Seen, Next, p, n);
      if head.priority > p {
        p, n := head.priority, 1;
      } else if head.priority == p {
        n := n + 1;
      }
      todo := todo - {k};
      Seen := Next;
    }
    assert Seen == S;
    MaxUnique(p, n, S);
  }

  lemma HeadCounts(list: seq<Rule>, A: set<Rule>, B: set<Rule>, p: nat, n: nat)
    requires list != [] && Descending(list) && MaxOk(p, n, A)
    requires B == A + (set r | r in list) && forall r :: r in list ==> r !in A
    ensures var q := list[0].priority;
            MaxOk(if q > p then q else p, if q > p then 1 else if q == p then n + 1 else n, B)
  {
    var h := list[0];
    TailBelow(list);
    if h.priority > p {
      assert WithPriority(B, h.priority) == {h};
    } else if h.priority == p {
      assert WithPriority(B, p) == WithPriority(A, p) + {h};
    } else {
      assert WithPriority(B, p) == WithPriority(A, p);
    }
  }

  // ------------------------------------------------ the operations, step by step

  /** insert_rule, with the rest of classifier_replace's work on the subtable:
      hash the rule stage by stage into the indices, find the identical rules
      by the last hash, and place the rule among them. */
  method InsertRule(env: Env, st: Subtable, rule: Rule) returns (st1: Subtable, displaced: Option<Rule>)
    requires SubtableShape(st)
    requires forall i, j :: 0 <= i < j < |st.indexOfs| ==> st.indexOfs[i] < st.indexOfs[j]
    ensures st1 == AddRule(env, st, rule) && displaced == Displaced(OldList(env, st, rule), rule)
  {
    hide FoldHash, MaskWords, HashUpTo, InsertSorted, Displaced, PT.Insert;
    var hashes: seq<Word> := [];
    var basis, prev, i := Zero(), 0, 0;
    NothingYet(env, rule.flow, st.mask);
    while i < |st.indexOfs|
      invariant i <= |st.indexOfs| == |st.indices| && |hashes| == i
      invariant prev == if i == 0 then 0 else st.indexOfs[i - 1]
      invariant basis == FoldHash(env, rule.flow, st.mask, 0, prev, Zero())
      invariant forall k :: 0 <= k < i ==> hashes[k] == HashUpTo(env, rule.flow, st.mask, st.indexOfs[k])
    {
      var hash, next := HashRange(env, rule.flow, st.mask, prev, st.indexOfs[i], basis);
      StagedHash(env, rule.flow, st.mask, prev, st.indexOfs[i], basis, hash, next);
      basis, prev := next, st.indexOfs[i];
      hashes := hashes + [hash];
      i := i + 1;
    }
    var full, last := HashRange(env, rule.flow, st.mask, prev, FLOW_U32S, basis);
    StagedHash(env, rule.flow, st.mask, prev, FLOW_U32S, basis, full, last);
    var list := if rule.flow in st.groups && st.groups[rule.flow].hash == full then st.groups[rule.flow].rules else [];
    var out, old_ := InsertIntoList(list, rule);
    displaced := old_;
    var indices := seq(|st.indices|, k requires 0 <= k < |st.indices| =>
                     var more := st.indices[k] + {(hashes[k], rule)};
                     match old_
                     case None => more
                     case Some(o) => if o == rule then more else more - {(HashUpTo(env, o.flow, st.mask, st.indexOfs[k]), o)});
    st1 := st.(groups := st.groups[rule.flow := Group(full, out)], indices := indices);
    assert indices == AddRule(env, st, rule).indices;
    if displaced.None? {
      if rule.priority == st.maxPriority {
        st1 := st1.(maxCount := st.maxCount + 1);
      } else if rule.priority > st.maxPriority {
        st1 := st1.(maxPriority := rule.priority, maxCount := 1);
      }
      st1 := st1.(nRules := st.nRules + 1);
      if st.portsMaskLen > 0 {
        st1 := st1.(portsTrie := PT.Insert(st.portsTrie, [MaskedPorts(rule)], 0, st.portsMaskLen));
      }
    }
  }

  lemma NothingYet(env: Env, flow: Flow, mask: Mask)
    ensures FoldHash(env, flow, mask, 0, 0, Zero()) == Zero()
  {
  }

  /** Hashing stage by stage ends in the hash of all the words so far. */
  lemma StagedHash(env: Env, flow: Flow, mask: Mask, start: nat, end: nat, basis: Word, hash: Word, next: Word)
    requires start <= end <= FLOW_U32S && basis == FoldHash(env, flow, mask, 0, start, Zero())
    requires next == FoldHash(env, flow, mask, start, end, basis)
    requires hash == env.finish(next, 4 * MaskWords(mask, end))
    ensures next == FoldHash(env, flow, mask, 0, end, Zero()) && hash == HashUpTo(env, flow, mask, end)
  {
    FoldHashSplit(env, flow, mask, 0, start, end, Zero());
  }

  /** The subtable part of classifier_remove when other rules remain. */
  method DeleteRule(env: Env, st: Subtable, rule: Rule, ghost S: set<Rule>) returns (st1: Subtable)
    requires SubOk(env, st, S) && rule in S && S != {rule}
    requires SubtableShape(st) && rule.flow in st.groups && st.nRules > 0 && st.maxCount > 0
    ensures st1 == RemoveRule(env, st, rule)
  {
    hide GroupsOk, IndexOk, MaxOk, PortsOk, HashUpTo, MaxOf, WithPriority, RuleSet, GroupsRemove, PT.Remove, PortsMaskLen;
    var groups := GroupsRemove(st.groups, rule);
    st1 := st.(groups := groups,
               indices := seq(|st.indices|, i requires 0 <= i < |st.indices| =>
                            st.indices[i] - {(HashUpTo(env, rule.flow, st.mask, st.indexOfs[i]), rule)}),
               nRules := st.nRules - 1,
               portsTrie := if st.portsMaskLen == 0 then st.portsTrie
                            else PT.Remove(st.portsTrie, [MaskedPorts(rule)], 0, st.portsMaskLen).trie);
    assert st1.indices == RemoveRule(env, st, rule).indices;
    if rule.priority == st.maxPriority {
      if st.maxCount == 1 {
        GroupsRemoveOk(env, st, S, rule);
        RuleSetIs(env, st.mask, groups, S - {rule});
        var p, n := HighestHead(env, st.mask, groups, S - {rule});
        st1 := st1.(maxPriority := p, maxCount := n);
      } else {
        st1 := st1.(maxCount := st.maxCount - 1);
      }
    }
  }
}
