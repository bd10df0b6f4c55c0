/** The datapath's array of flow masks.  Slots below 'count' are in use; a
    slot past it may still repeat a mask from below, never one that is gone. */
module MaskArray {
  import opened Options

  const MASK_ARRAY_SIZE_MIN: nat := 16

  /** Slots hold references to masks, by identity. */
  type Slots = seq<Option<nat>>

  predicate SlotsOk(s: Slots, count: nat) {
    && count <= |s|
    && (forall i :: 0 <= i < count ==> s[i].Some?)
    && (forall i, j :: 0 <= i < j < count ==> s[i] != s[j])
    && (forall i :: count <= i < |s| && s[i].Some? ==> s[i] in s[..count])
  }

  ghost function Live(s: Slots, count: nat): set<nat>
    requires count <= |s|
  {
    set i | 0 <= i < count && s[i].Some? :: s[i].value
  }

  /** Every slot a scan can reach, and any slot a stale index can name, is
      empty or holds a live mask. */
  lemma SlotIsLive(s: Slots, count: nat, i: nat)
    requires SlotsOk(s, count) && i < |s| && s[i].Some?
    ensures s[i].value in Live(s, count)
  {
    if i >= count {
      var j :| 0 <= j < count && s[..count][j] == s[i];
      assert s[j] == s[i];
    }
  }

  /** A scan that stops at the first empty slot has seen every live mask. */
  lemma ScanSeesAll(s: Slots, count: nat, i: nat, m: nat)
    requires SlotsOk(s, count) && i <= |s| && (count <= i || s[i].None?)
    requires m in Live(s, count)
    ensures Some(m) in s[..i]
  {
    var k :| 0 <= k < count && s[k] == Some(m);
    assert s[..i][k] == Some(m);
  }

  // ------------------------------------------------ what the updates do

  function Appended(s: Slots, count: nat, m: nat): Slots
    requires count < |s|
  {
    s[count := Some(m)]
  }

  /** The mask at 'i' replaced by the last one, and forgotten past the end. */
  function Deleted(s: Slots, count: nat, i: nat): (r: Slots)
    requires i < count <= |s|
    ensures |r| == |s|
  {
    seq(|s|, k requires 0 <= k < |s| =>
      if k == i && i < count - 1 then s[count - 1]
      else if k >= count - 1 && s[k] == s[i] then None
      else s[k])
  }

  function Resized(s: Slots, size: nat): (r: Slots)
    ensures |r| == size
  {
    seq(size, k requires 0 <= k < size => if k < |s| then s[k] else None)
  }

  lemma AppendedOk(s: Slots, count: nat, m: nat)
    requires SlotsOk(s, count) && count < |s| && m !in Live(s, count)
    ensures SlotsOk(Appended(s, count, m), count + 1)
    ensures Live(Appended(s, count, m), count + 1) == Live(s, count) + {m}
  {
    var t := Appended(s, count, m);
    forall i | 0 <= i < count ensures s[i] != Some(m) {
      assert s[i].value in Live(s, count);
    }
    forall i | count + 1 <= i < |t| && t[i].Some? ensures t[i] in t[..count + 1] {
      assert s[i] in s[..count];
      var j :| 0 <= j < count && s[..count][j] == s[i];
      assert t[..count + 1][j] == t[i];
    }
    forall x | x in Live(t, count + 1) ensures x in Live(s, count) + {m} {
      var i :| 0 <= i < count + 1 && t[i] == Some(x);
      if i < count { assert s[i] == Some(x); }
    }
    forall x | x in Live(s, count) + {m} ensures x in Live(t, count + 1) {
      if x == m {
        assert t[count] == Some(m);
      } else {
        var i :| 0 <= i < count && s[i] == Some(x);
        assert t[i] == Some(x);
      }
    }
  }

  /** Deleting a mask takes it out of every slot and loses no other. */
  lemma DeletedOk(s: Slots, count: nat, i: nat)
    requires SlotsOk(s, count) && i < count
    ensures SlotsOk(Deleted(s, count, i), count - 1)
    ensures Live(Deleted(s, count, i), count - 1) == Live(s, count) - {s[i].value}
    ensures s[i] !in Deleted(s, count, i)
  {
    hide Deleted, SlotsOk, Live;
    DeletedSlots(s, count, i);
    DeletedLive(s, count, i);
  }

  lemma DeletedSlots(s: Slots, count: nat, i: nat)
    requires SlotsOk(s, count) && i < count
    ensures SlotsOk(Deleted(s, count, i), count - 1)
    ensures s[i] !in Deleted(s, count, i)
  {
    var t := Deleted(s, count, i);
    forall k | count - 1 <= k < |t| && t[k].Some? ensures t[k] in t[..count - 1] {
      assert s[k] != s[i];
      var j := SlotBelow(s, count, k);
      if j == count - 1 {
        assert t[..count - 1][i] == t[k];
      } else {
        assert t[..count - 1][j] == t[k];
      }
    }
  }

  lemma SlotBelow(s: Slots, count: nat, k: nat) returns (j: nat)
    requires SlotsOk(s, count) && k < |s| && s[k].Some?
    ensures j < count && s[j] == s[k]
  {
    if k < count {
      j := k;
    } else {
      j :| 0 <= j < count && s[..count][j] == s[k];
    }
  }

  lemma DeletedLive(s: Slots, count: nat, i: nat)
    requires SlotsOk(s, count) && i < count
    ensures Live(Deleted(s, count, i), count - 1) == Live(s, count) - {s[i].value}
  {
    var t := Deleted(s, count, i);
    forall x | x in Live(t, count - 1) ensures x in Live(s, count) - {s[i].value} {
      var k :| 0 <= k < count - 1 && t[k] == Some(x);
      assert s[if k == i then count - 1 else k] == Some(x);
    }
    forall x | x in Live(s, count) - {s[i].value} ensures x in Live(t, count - 1) {
      var k :| 0 <= k < count && s[k] == Some(x);
      assert t[if k == count - 1 then i else k] == Some(x);
    }
  }

  lemma ResizedOk(s: Slots, count: nat, size: nat)
    requires SlotsOk(s, count) && count <= size
    ensures SlotsOk(Resized(s, size), count) && Live(Resized(s, size), count) == Live(s, count)
  {
    var t := Resized(s, size);
    assert t[..count] == s[..count];
    forall x ensures x in Live(t, count) <==> x in Live(s, count) {
      if x in Live(s, count) {
        var i :| 0 <= i < count && s[i] == Some(x);
        assert t[i] == Some(x);
      }
      if x in Live(t, count) {
        var i :| 0 <= i < count && t[i] == Some(x);
        assert s[i] == Some(x);
      }
    }
  }

  /** The array itself. */
  class Masks {
    var masks: array<Option<nat>>
    var count: nat

    ghost predicate Valid()
      reads this, masks
    {
      SlotsOk(masks[..], count)
    }

    ghost function Set(): set<nat>
      requires Valid()
      reads this, masks
    {
      Live(masks[..], count)
    }

    /** tbl_mask_array_alloc. */
    constructor ()
      ensures Valid() && Set() == {} && count == 0 && fresh(masks)
    {
      masks := new Option<nat>[MASK_ARRAY_SIZE_MIN](i => None);
      count := 0;
    }

    /** tbl_mask_array_realloc, when the allocation succeeds. */
    method Realloc(size: nat)
      requires Valid() && count <= size
      modifies this`masks
      ensures Valid() && fresh(masks) && masks[..] == Resized(old(masks[..]), size) && Set() == old(Set())
    {
      hide SlotsOk, Live;
      ghost var s := masks[..];
      SlotsSize(s, count);
      ResizedOk(s, count, size);
      var a := masks;
      var bigger := new Option<nat>[size](i => None);
      var n := if a.Length < size then a.Length else size;
      var i := 0;
      while i < n
        modifies bigger
        invariant i <= n
        invariant forall k :: 0 <= k < size ==> bigger[k] == if k < i then a[k] else None
      {
        bigger[i] := a[i];
        i := i + 1;
      }
      masks := bigger;
      assert masks[..] == Resized(s, size);
    }

    /** The addition at the end of flow_mask_insert. */
    method Append(m: nat)
      requires Valid() && count < masks.Length && m !in Set()
      modifies this`count, masks
      ensures Valid() && Set() == old(Set()) + {m}
      ensures count == old(count) + 1 && masks[..] == Appended(old(masks[..]), old(count), m)
    {
      AppendedOk(masks[..], count, m);
      masks[count] := Some(m);
      count := count + 1;
      assert masks[..] == Appended(old(masks[..]), old(count), m);
    }

    /** tbl_mask_array_delete_mask: move the last mask into the place of the
        deleted one, then clear the slots past the end that still name it. */
    method Delete(m: nat)
      requires Valid() && m in Set()
      modifies this`count, masks
      ensures Valid() && Set() == old(Set()) - {m} && Some(m) !in masks[..]
      ensures count == old(count) - 1
      ensures exists i :: 0 <= i < old(count) <= masks.Length && old(masks[i]) == Some(m) && masks[..] == Deleted(old(masks[..]), old(count), i)
    {
      hide SlotsOk, Live;
      ghost var s, n := masks[..], count;
      SlotsSize(s, n);
      var i := FindSlot(m);
      DeletedOk(s, n, i);
      masks[i] := masks[count - 1];
      count := count - 1;
      Clear(m);
      assert masks[..] == Deleted(s, n, i);
    }

    method FindSlot(m: nat) returns (i: nat)
      requires Valid() && m in Set()
      ensures i < count && masks[i] == Some(m)
    {
      ghost var j :| 0 <= j < count && masks[..][j] == Some(m);
      i := 0;
      while masks[i] != Some(m)
        invariant i <= j < count <= masks.Length && masks[j] == Some(m)
        decreases count - i
      {
        i := i + 1;
      }
    }

    /** The second loop of the deletion. */
    method Clear(m: nat)
      requires count <= masks.Length
      modifies masks
      ensures forall k :: 0 <= k < masks.Length ==> masks[k] == if k >= count && old(masks[k]) == Some(m) then None else old(masks[k])
    {
      var i := count;
      while i < masks.Length
        invariant count <= i <= masks.Length
        invariant forall k :: 0 <= k < masks.Length ==>
          masks[k] == if count <= k < i && old(masks[k]) == Some(m) then None else old(masks[k])
      {
        if masks[i] == Some(m) {
          masks[i] := None;
        }
        i := i + 1;
      }
    }
  }

  lemma LiveSlot(s: Slots, count: nat, i: nat)
    requires SlotsOk(s, count) && i < count
    ensures i < |s| && s[i].Some? && s[i].value in Live(s, count)
  {
  }

  lemma SlotsSize(s: Slots, count: nat)
    requires SlotsOk(s, count)
    ensures count <= |s|
  {
  }
}
