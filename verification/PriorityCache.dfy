/** The array of subtables in descending order of their highest priority. */
module PriorityCache {
  import opened Flows
  import opened Tags

  /** 'mask' names the subtable: a classifier has one per mask. */
  datatype Entry = Entry(mask: Mask, tag: Tag, maxPriority: nat)

  predicate Sorted(s: seq<Entry>) {
    forall i, j :: 0 <= i < j < |s| ==> s[i].maxPriority >= s[j].maxPriority
  }

  predicate Distinct(s: seq<Entry>) {
    forall i, j :: 0 <= i < j < |s| ==> s[i].mask != s[j].mask
  }

  /** Position of the subtable in the array. */
  function IndexOf(s: seq<Entry>, m: Mask): (k: nat)
    ensures k <= |s|
    ensures forall i :: 0 <= i < k ==> s[i].mask != m
    ensures k < |s| ==> s[k].mask == m
  {
    if s == [] || s[0].mask == m then 0 else 1 + IndexOf(s[1..], m)
  }

  /** Index from which a move takes the entry that ends up at 'i'. */
  function Source(to: nat, from: nat, i: nat): nat {
    if i == to then from
    else if to < i <= from then i - 1
    else if from <= i < to then i + 1
    else i
  }

  /** cls_subtable_cache_move as a function of the contents: the entry at
      'from' goes to 'to' and those in between shift by one. */
  function Moved(s: seq<Entry>, to: nat, from: nat): (r: seq<Entry>)
    requires to < |s| && from < |s|
    ensures |r| == |s|
  {
    seq(|s|, i requires 0 <= i < |s| => s[Source(to, from, i)])
  }

  /** Where an entry at 'k' belongs once its priority has grown to 'p'. */
  function UpTo(s: seq<Entry>, k: nat, p: nat): (d: nat)
    requires k <= |s|
    ensures d <= k
    ensures forall i :: d <= i < k ==> s[i].maxPriority < p
    ensures d > 0 ==> s[d - 1].maxPriority >= p
  {
    if k == 0 || s[k - 1].maxPriority >= p then k else UpTo(s, k - 1, p)
  }

  /** One past where an entry before 'k' belongs once it has shrunk to 'p'. */
  function DownTo(s: seq<Entry>, k: nat, p: nat): (d: nat)
    requires k <= |s|
    ensures k <= d <= |s|
    ensures forall i :: k <= i < d ==> s[i].maxPriority > p
    ensures d < |s| ==> s[d].maxPriority <= p
    decreases |s| - k
  {
    if k == |s| || s[k].maxPriority <= p then k else DownTo(s, k + 1, p)
  }

  function Repriced(s: seq<Entry>, k: nat, p: nat): seq<Entry>
    requires k < |s|
  {
    s[k := s[k].(maxPriority := p)]
  }

  function Raised(s: seq<Entry>, k: nat, p: nat): seq<Entry>
    requires k < |s|
  {
    Moved(Repriced(s, k, p), UpTo(s, k, p), k)
  }

  function Lowered(s: seq<Entry>, k: nat, p: nat): seq<Entry>
    requires k < |s|
  {
    Moved(Repriced(s, k, p), DownTo(s, k + 1, p) - 1, k)
  }

  lemma RaisedSorted(s: seq<Entry>, k: nat, p: nat)
    requires k < |s| && Sorted(s) && p > s[k].maxPriority
    ensures Sorted(Raised(s, k, p))
  {
    hide UpTo;
    var d, t, u := UpTo(s, k, p), Raised(s, k, p), Repriced(s, k, p);
    forall i, j | 0 <= i < j < |t| ensures t[i].maxPriority >= t[j].maxPriority {
      assert t[i] == u[Source(d, k, i)] && t[j] == u[Source(d, k, j)];
    }
  }

  lemma LoweredSorted(s: seq<Entry>, k: nat, p: nat)
    requires k < |s| && Sorted(s) && p < s[k].maxPriority
    ensures Sorted(Lowered(s, k, p))
  {
    hide DownTo;
    var d, t, u := DownTo(s, k + 1, p) - 1, Lowered(s, k, p), Repriced(s, k, p);
    forall i, j | 0 <= i < j < |t| ensures t[i].maxPriority >= t[j].maxPriority {
      assert t[i] == u[Source(d, k, i)] && t[j] == u[Source(d, k, j)];
    }
  }

  /** The entries seen as a map; moving entries does not change it. */
  ghost predicate Lists(s: seq<Entry>, m: map<Mask, (Tag, nat)>) {
    && (forall i :: 0 <= i < |s| ==> s[i].mask in m && m[s[i].mask] == (s[i].tag, s[i].maxPriority))
    && (forall k :: k in m ==> exists i :: 0 <= i < |s| && s[i].mask == k)
  }

  lemma MovedDistinct(s: seq<Entry>, to: nat, from: nat)
    requires to < |s| && from < |s| && Distinct(s)
    ensures Distinct(Moved(s, to, from))
  {
    var t := Moved(s, to, from);
    forall i, j | 0 <= i < j < |t| ensures t[i].mask != t[j].mask {
      assert t[i] == s[Source(to, from, i)] && t[j] == s[Source(to, from, j)];
      assert Source(to, from, i) != Source(to, from, j);
    }
  }

  lemma MovedLists(s: seq<Entry>, to: nat, from: nat, m: map<Mask, (Tag, nat)>)
    requires to < |s| && from < |s| && Lists(s, m)
    ensures Lists(Moved(s, to, from), m)
  {
    var t := Moved(s, to, from);
    forall i | 0 <= i < |t| ensures t[i].mask in m && m[t[i].mask] == (t[i].tag, t[i].maxPriority) {
      assert t[i] == s[Source(to, from, i)];
    }
    forall k | k in m ensures exists i :: 0 <= i < |t| && t[i].mask == k {
      var i :| 0 <= i < |s| && s[i].mask == k;
      var j := Source(from, to, i);
      assert Source(to, from, j) == i;
      assert t[j] == s[i];
    }
  }

  /** The array lists exactly the subtables of 'm', each once, with its tag
      and highest priority, by descending priority. */
  ghost predicate OrderOk(s: seq<Entry>, m: map<Mask, (Tag, nat)>) {
    Sorted(s) && Distinct(s) && Lists(s, m)
  }

  lemma OrderIndex(s: seq<Entry>, m: map<Mask, (Tag, nat)>, x: Mask)
    requires OrderOk(s, m) && x in m
    ensures var k := IndexOf(s, x); k < |s| && s[k] == Entry(x, m[x].0, m[x].1)
  {
    hide Sorted, Distinct;
    var i :| 0 <= i < |s| && s[i].mask == x;
    var k := IndexOf(s, x);
    assert s[k].mask in m;
  }

  lemma AppendLists(s: seq<Entry>, m: map<Mask, (Tag, nat)>, e: Entry, m1: map<Mask, (Tag, nat)>)
    requires Lists(s, m) && e.mask !in m && m1 == m[e.mask := (e.tag, e.maxPriority)]
    ensures Lists(s + [e], m1)
  {
    var t := s + [e];
    forall k | k in m1 ensures exists i :: 0 <= i < |t| && t[i].mask == k {
      if k == e.mask {
        assert t[|s|].mask == k;
      } else {
        var i :| 0 <= i < |s| && s[i].mask == k;
        assert t[i].mask == k;
      }
    }
  }

  lemma AppendDistinct(s: seq<Entry>, m: map<Mask, (Tag, nat)>, e: Entry)
    requires Lists(s, m) && Distinct(s) && e.mask !in m
    ensures Distinct(s + [e])
  {
    forall i | 0 <= i < |s| ensures s[i].mask != e.mask {
      assert s[i].mask in m;
    }
  }

  lemma OrderAppend(s: seq<Entry>, m: map<Mask, (Tag, nat)>, x: Mask, tag: Tag)
    requires OrderOk(s, m) && x !in m
    ensures OrderOk(s + [Entry(x, tag, 0)], m[x := (tag, 0)])
  {
    hide Lists, Distinct;
    AppendLists(s, m, Entry(x, tag, 0), m[x := (tag, 0)]);
    AppendDistinct(s, m, Entry(x, tag, 0));
  }

  lemma RepricedLists(s: seq<Entry>, m: map<Mask, (Tag, nat)>, k: nat, p: nat)
    requires Distinct(s) && Lists(s, m) && k < |s|
    ensures Distinct(Repriced(s, k, p)) && Lists(Repriced(s, k, p), m[s[k].mask := (s[k].tag, p)])
  {
    var t, x := Repriced(s, k, p), s[k].mask;
    var m1 := m[x := (s[k].tag, p)];
    forall i | 0 <= i < |t| ensures t[i].mask in m1 && m1[t[i].mask] == (t[i].tag, t[i].maxPriority) {
      assert s[i].mask in m;
      if i != k { assert s[i].mask != x; }
    }
    forall y | y in m1 ensures exists i :: 0 <= i < |t| && t[i].mask == y {
      var i :| 0 <= i < |s| && s[i].mask == y;
      assert t[i].mask == y;
    }
  }

  /** Raising a subtable's priority keeps the order. */
  lemma OrderRaise(s: seq<Entry>, m: map<Mask, (Tag, nat)>, x: Mask, p: nat)
    requires OrderOk(s, m) && x in m && p > m[x].1
    ensures IndexOf(s, x) < |s| && OrderOk(Raised(s, IndexOf(s, x), p), m[x := (m[x].0, p)])
  {
    hide UpTo, Moved, Repriced, Sorted, Distinct, Lists;
    OrderIndex(s, m, x);
    var k := IndexOf(s, x);
    RepricedLists(s, m, k, p);
    RaisedSorted(s, k, p);
    RepricedSize(s, k, p);
    MovedLists(Repriced(s, k, p), UpTo(s, k, p), k, m[x := (m[x].0, p)]);
    MovedDistinct(Repriced(s, k, p), UpTo(s, k, p), k);
  }

  /** Lowering it does too. */
  lemma OrderLower(s: seq<Entry>, m: map<Mask, (Tag, nat)>, x: Mask, p: nat)
    requires OrderOk(s, m) && x in m && p < m[x].1
    ensures IndexOf(s, x) < |s| && OrderOk(Lowered(s, IndexOf(s, x), p), m[x := (m[x].0, p)])
  {
    hide DownTo, Moved, Repriced, Sorted, Distinct, Lists;
    OrderIndex(s, m, x);
    var k := IndexOf(s, x);
    RepricedLists(s, m, k, p);
    LoweredSorted(s, k, p);
    RepricedSize(s, k, p);
    MovedLists(Repriced(s, k, p), DownTo(s, k + 1, p) - 1, k, m[x := (m[x].0, p)]);
    MovedDistinct(Repriced(s, k, p), DownTo(s, k + 1, p) - 1, k);
  }

  lemma RepricedSize(s: seq<Entry>, k: nat, p: nat)
    requires k < |s|
    ensures |Repriced(s, k, p)| == |s|
  {
  }

  function Dropped(s: seq<Entry>, k: nat): (t: seq<Entry>)
    requires k < |s|
    ensures |t| == |s| - 1 && forall i :: 0 <= i < |t| ==> t[i] == s[if i < k then i else i + 1]
  {
    s[..k] + s[k + 1..]
  }

  lemma DropLists(s: seq<Entry>, m: map<Mask, (Tag, nat)>, k: nat, m1: map<Mask, (Tag, nat)>)
    requires Lists(s, m) && Distinct(s) && k < |s| && m1 == m - {s[k].mask}
    ensures Lists(Dropped(s, k), m1)
  {
    hide Dropped, Distinct, Lists;
    var t := Dropped(s, k);
    forall i | 0 <= i < |t| ensures t[i].mask in m1 && m1[t[i].mask] == (t[i].tag, t[i].maxPriority) {
      DropKept(s, m, k, if i < k then i else i + 1);
    }
    forall y | y in m1 ensures exists i :: 0 <= i < |t| && t[i].mask == y {
      var i := ListedAt(s, m, y);
      assert t[if i < k then i else i - 1] == s[i];
    }
    ListsFrom(t, m1);
  }

  lemma DropKept(s: seq<Entry>, m: map<Mask, (Tag, nat)>, k: nat, i: nat)
    requires Lists(s, m) && Distinct(s) && k < |s| && i < |s| && i != k
    ensures s[i].mask in m && m[s[i].mask] == (s[i].tag, s[i].maxPriority) && s[i].mask != s[k].mask
  {
  }

  lemma ListedAt(s: seq<Entry>, m: map<Mask, (Tag, nat)>, y: Mask) returns (i: nat)
    requires Lists(s, m) && y in m
    ensures i < |s| && s[i].mask == y
  {
    i :| 0 <= i < |s| && s[i].mask == y;
  }

  lemma ListsFrom(s: seq<Entry>, m: map<Mask, (Tag, nat)>)
    requires forall i :: 0 <= i < |s| ==> s[i].mask in m && m[s[i].mask] == (s[i].tag, s[i].maxPriority)
    requires forall k :: k in m ==> exists i :: 0 <= i < |s| && s[i].mask == k
    ensures Lists(s, m)
  {
  }

  lemma DropSorted(s: seq<Entry>, k: nat)
    requires k < |s|
    ensures Sorted(s) ==> Sorted(Dropped(s, k))
    ensures Distinct(s) ==> Distinct(Dropped(s, k))
  {
    hide Dropped;
  }

  lemma OrderDrop(s: seq<Entry>, m: map<Mask, (Tag, nat)>, x: Mask)
    requires OrderOk(s, m) && x in m
    ensures IndexOf(s, x) < |s| && OrderOk(Dropped(s, IndexOf(s, x)), m - {x})
  {
    hide Dropped, Sorted, Distinct, Lists;
    OrderIndex(s, m, x);
    DropLists(s, m, IndexOf(s, x), m - {x});
    DropSorted(s, IndexOf(s, x));
  }

  /** The growing array itself. */
  class SubtableCache {
    var subtables: array<Entry>
    var size: nat

    ghost predicate Valid()
      reads this
    {
      size <= subtables.Length
    }

    ghost function Contents(): (s: seq<Entry>)
      requires Valid()
      reads this, subtables
      ensures |s| == size
    {
      subtables[..size]
    }

    constructor ()
      ensures Valid() && Contents() == [] && fresh(subtables)
    {
      subtables := new Entry[0];
      size := 0;
    }

    /** cls_subtable_cache_push_back: the array doubles when it is full. */
    method PushBack(e: Entry)
      requires Valid()
      modifies this, subtables
      ensures Valid() && Contents() == old(Contents()) + [e]
      ensures subtables == old(subtables) || fresh(subtables)
    {
      if size == subtables.Length {
        var a, n := subtables, size;
        var bigger := new Entry[2 * n + 1](i => e);
        for i := 0 to n
          modifies bigger
          invariant bigger[..i] == a[..i]
        {
          bigger[i] := a[i];
        }
        subtables := bigger;
      }
      subtables[size] := e;
      size := size + 1;
      assert Contents()[..size - 1] == old(Contents());
    }

    /** cls_subtable_cache_move. */
    method Move(to: nat, from: nat)
      requires Valid() && to < size && from < size
      modifies subtables
      ensures Valid() && Contents() == Moved(old(Contents()), to, from)
    {
      var temp := subtables[from];
      if to > from {
        ShiftBack(to, from);
      } else {
        ShiftForward(to, from);
      }
      subtables[to] := temp;
    }

    /** The two memmove calls. */
    method ShiftBack(to: nat, from: nat)
      requires Valid() && from <= to < size
      modifies subtables
      ensures forall k :: from <= k < to ==> subtables[k] == old(subtables[k + 1])
      ensures forall k :: 0 <= k < from || to <= k < size ==> subtables[k] == old(subtables[k])
    {
      var i := from;
      while i < to
        invariant from <= i <= to
        invariant forall k :: from <= k < i ==> subtables[k] == old(subtables[k + 1])
        invariant forall k :: 0 <= k < from || i <= k < size ==> subtables[k] == old(subtables[k])
      {
        subtables[i] := subtables[i + 1];
        i := i + 1;
      }
    }

    method ShiftForward(to: nat, from: nat)
      requires Valid() && to <= from < size
      modifies subtables
      ensures forall k :: to < k <= from ==> subtables[k] == old(subtables[k - 1])
      ensures forall k :: 0 <= k <= to || from < k < size ==> subtables[k] == old(subtables[k])
    {
      var i := from;
      while i > to
        invariant to <= i <= from
        invariant forall k :: i < k <= from ==> subtables[k] == old(subtables[k - 1])
        invariant forall k :: 0 <= k <= i || from < k < size ==> subtables[k] == old(subtables[k])
      {
        subtables[i] := subtables[i - 1];
        i := i - 1;
      }
    }

    /** cls_subtable_cache_remove. */
    method RemoveAt(k: nat)
      requires Valid() && k < size
      modifies this`size, subtables
      ensures Valid() && Contents() == Dropped(old(Contents()), k)
    {
      var n := size - 1;
      var i := k;
      while i < n
        modifies subtables
        invariant k <= i <= n
        invariant forall j :: 0 <= j <= n ==> subtables[j] == if k <= j < i then old(subtables[j + 1]) else old(subtables[j])
      {
        subtables[i] := subtables[i + 1];
        i := i + 1;
      }
      size := n;
    }

    /** The scan and move of update_subtables_after_insertion.  An entry that
        must come first can only be met after the subtable's own entry, so
        the "corrupted" branch is never taken. */
    method Raise(m: Mask, p: nat)
      requires Valid() && Sorted(Contents()) && Distinct(Contents())
      requires IndexOf(Contents(), m) < size && p > Contents()[IndexOf(Contents(), m)].maxPriority
      modifies subtables
      ensures Valid() && Contents() == Raised(old(Contents()), IndexOf(old(Contents()), m), p)
    {
      hide IndexOf, UpTo, Moved;
      ghost var s := Contents();
      ghost var k := IndexOf(s, m);
      var iter := size;
      var from := size;
      while iter > 0
        invariant 0 <= iter <= size && size == old(size)
        invariant from == size ==> k < iter && Contents() == s
        invariant from != size ==> from == k && iter <= k && Contents() == Repriced(s, k, p)
        invariant forall i :: iter <= i < k ==> s[i].maxPriority < p
      {
        assert subtables[iter - 1] == Contents()[iter - 1];
        assert k < iter - 1 ==> s[k].maxPriority >= s[iter - 1].maxPriority;
        if subtables[iter - 1].mask == m {
          iter := iter - 1;
          from := iter;
          assert iter == k;
          subtables[iter] := subtables[iter].(maxPriority := p);
          assert Contents() == Repriced(s, k, p);
        } else if subtables[iter - 1].maxPriority >= p {
          if from == size {
            assert false; // "Subtable priority list corrupted."
          }
          break;
        } else {
          iter := iter - 1;
        }
      }
      assert iter == UpTo(s, k, p) by { UpToUnique(s, k, p, iter); }
      Move(iter, from);
    }

    /** The scan and move of update_subtables_after_removal. */
    method Lower(m: Mask, p: nat)
      requires Valid() && Sorted(Contents()) && Distinct(Contents())
      requires IndexOf(Contents(), m) < size && p < Contents()[IndexOf(Contents(), m)].maxPriority
      modifies subtables
      ensures Valid() && Contents() == Lowered(old(Contents()), IndexOf(old(Contents()), m), p)
    {
      hide IndexOf, DownTo, Moved;
      ghost var s := Contents();
      ghost var k := IndexOf(s, m);
      var iter := 0;
      var from := size;
      while iter < size
        invariant iter <= size && size == old(size)
        invariant from == size ==> iter <= k && Contents() == s
        invariant from != size ==> from == k && k < iter && Contents() == Repriced(s, k, p)
        invariant forall i :: k < i < iter ==> s[i].maxPriority > p
      {
        assert subtables[iter] == Contents()[iter];
        assert iter < k ==> s[iter].maxPriority >= s[k].maxPriority;
        if subtables[iter].mask == m {
          from := iter;
          assert iter == k;
          subtables[iter] := subtables[iter].(maxPriority := p);
          assert Contents() == Repriced(s, k, p);
        } else if subtables[iter].maxPriority <= p {
          if from == size {
            assert false; // "Subtable priority list corrupted."
          }
          break;
        }
        iter := iter + 1;
      }
      assert iter == DownTo(s, k + 1, p) by { DownToUnique(s, k + 1, p, iter); }
      Move(iter - 1, from);
    }
  }

  lemma UpToUnique(s: seq<Entry>, k: nat, p: nat, d: nat)
    requires d <= k <= |s| && (forall i :: d <= i < k ==> s[i].maxPriority < p) && (d > 0 ==> s[d - 1].maxPriority >= p)
    ensures d == UpTo(s, k, p)
  {
  }

  lemma DownToUnique(s: seq<Entry>, k: nat, p: nat, d: nat)
    requires k <= d <= |s| && (forall i :: k <= i < d ==> s[i].maxPriority > p) && (d < |s| ==> s[d].maxPriority <= p)
    ensures d == DownTo(s, k, p)
  {
  }
}
