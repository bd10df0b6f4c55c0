/** The growing buffer that an action list is copied into, and the copying. */
module ActionBuffer {
  import opened ActionNetlink
  import opened FlowKeyNetlink
  import opened Netlink
  import opened Options

  /** Offset of the actions in their allocation, and its size without them. */
  const OFFSET: nat := 20
  const SIZEOF: nat := 24
  const MAX_ACTIONS_BUFSIZE: nat := 32768
  const MAX_KSIZE: nat := 65536

  // ------------------------------------------------ growth

  /** reserve_sfa_size: the room for actions to ask for, None if that is more
      than may be had; 'room' is what there is, 'len' of it in use. */
  function Grown(room: nat, len: nat, req: nat): Option<nat> {
    var twice := 2 * (OFFSET + room);
    if twice <= MAX_ACTIONS_BUFSIZE then Some(twice)
    else if MAX_ACTIONS_BUFSIZE - (OFFSET + len) < req then None
    else Some(MAX_ACTIONS_BUFSIZE)
  }

  /** The room that an allocation for 'size' has at least. */
  function RoomOf(size: nat): nat {
    SIZEOF + size - OFFSET
  }

  /** After growth the request lies inside the new buffer exactly when the
      limit applied or the request is not more than what doubling adds. */
  lemma GrownFits(room: nat, len: nat, req: nat)
    requires len <= room && Grown(room, len, req).Some?
    ensures len + req <= RoomOf(Grown(room, len, req).value) <==>
              (2 * (OFFSET + room) > MAX_ACTIONS_BUFSIZE || req <= SIZEOF + OFFSET + 2 * room - len)
  {
  }

  /** So not always: an attribute much longer than the buffer overruns it. */
  lemma GrownOverrun()
    ensures Grown(64, 0, 200).Some? && RoomOf(Grown(64, 0, 200).value) < 200
  {
  }

  datatype Error = Invalid | NoSpace

  lemma PutAligned(a: Attr)
    ensures |Put(a)| % 4 == 0
  {
  }

  lemma {:induction false} PutAllAligned(l: seq<Attr>)
    ensures |PutAll(l)| % 4 == 0
  {
    hide Put;
    if l != [] {
      PutAllAligned(l[1..]);
      PutAligned(l[0]);
    }
  }

  /** A header, with the body after it, is an attribute. */
  lemma HeaderAndBody(kind: nat, body: Bytes)
    requires |body| % 4 == 0
    ensures Le16(NLA_HDRLEN + |body|) + Le16(kind) + body == Put(Attr(kind, body))
  {
    assert Align(|body|) == |body|;
  }

  lemma EmptyHeader(kind: nat)
    ensures Put(Attr(kind, [])) == Le16(NLA_HDRLEN) + Le16(kind)
  {
    HeaderAndBody(kind, []);
  }

  class Buffer {
    var data: array<Byte>
    var len: nat
    /** The size that an allocation of a given size really has, and whether
        the next allocations succeed; after the last given, all do. */
    const ksize: nat -> nat
    var memory: seq<bool>

    ghost predicate Rounds() {
      forall n: nat :: n <= ksize(n) && (n <= MAX_KSIZE ==> ksize(n) <= MAX_KSIZE)
    }

    ghost predicate Valid()
      reads this
    {
      Rounds() && len <= data.Length && OFFSET + data.Length <= MAX_KSIZE
    }

    ghost function Contents(): Bytes
      requires Valid()
      reads this, data
    {
      data[..len]
    }

    /** ovs_nla_alloc_flow_actions. */
    constructor (size: nat, ksize: nat -> nat, memory: seq<bool>)
      requires size <= MAX_ACTIONS_BUFSIZE
      requires forall n: nat :: n <= ksize(n) && (n <= MAX_KSIZE ==> ksize(n) <= MAX_KSIZE)
      ensures Valid() && Contents() == [] && data.Length >= size && fresh(data)
    {
      this.ksize, this.memory := ksize, memory;
      assert SIZEOF + size <= ksize(SIZEOF + size) <= MAX_KSIZE;
      data := new Byte[ksize(SIZEOF + size) - OFFSET];
      len := 0;
    }

    /** reserve_sfa_size: what was there stays, and the reserved bytes lie
        inside the buffer. */
    method Reserve(attrLen: nat) returns (r: Option<nat>)
      requires Valid() && Align(attrLen) <= data.Length + 2 * OFFSET
      modifies this`data, this`len, this`memory
      ensures Valid() && data.Length >= old(data.Length) && fresh({data} - {old(data)})
      ensures r.Some? ==> r.value == old(len) && len == old(len) + Align(attrLen)
      ensures r.None? ==> len == old(len)
      ensures data[..old(len)] == old(Contents())
    {
      hide Align;
      var req := Align(attrLen);
      if req > data.Length - len {
        var size := Grown(data.Length, len, req);
        if size.None? {
          return None;
        }
        var ok := Allocate();
        if !ok {
          return None;
        }
        GrownFits(data.Length, len, req);
        Enlarge(size.value);
      }
      r := Some(len);
      len := len + req;
    }

    method Allocate() returns (ok: bool)
      modifies this`memory
    {
      ok := true;
      if memory != [] {
        ok := memory[0];
        memory := memory[1..];
      }
    }

    method Enlarge(size: nat)
      requires Valid() && data.Length <= RoomOf(size) && size <= MAX_ACTIONS_BUFSIZE
      modifies this`data
      ensures Valid() && data.Length >= RoomOf(size) && fresh(data) && data[..len] == old(Contents())
    {
      var n := ksize(SIZEOF + size) - OFFSET;
      assert SIZEOF + size <= ksize(SIZEOF + size) <= MAX_KSIZE;
      var bigger := new Byte[n];
      var i := 0;
      while i < len
        modifies bigger
        invariant i <= len && bigger[..i] == data[..i]
      {
        bigger[i] := data[i];
        i := i + 1;
      }
      data := bigger;
    }

    method WriteAt(at: nat, d: Bytes)
      requires Valid() && at + |d| <= data.Length
      modifies data
      ensures data[..] == Over(old(data[..]), at, d)
    {
      var i := 0;
      while i < |d|
        invariant i <= |d|
        invariant forall k :: 0 <= k < data.Length ==> data[k] == if at <= k < at + i then d[k - at] else old(data[k])
      {
        data[at + i] := d[i];
        i := i + 1;
      }
    }

    /** add_action, and copy_action of an attribute. */
    method AddAction(a: Attr) returns (ok: bool)
      requires Valid() && NLA_HDRLEN + Align(|a.data|) <= data.Length + 2 * OFFSET
      modifies this`data, this`len, this`memory, data
      ensures Valid() && data.Length >= old(data.Length) && fresh({data} - {old(data)})
      ensures ok ==> Contents() == old(Contents()) + Put(a)
      ensures !ok ==> Contents() == old(Contents())
    {
      hide Align, Put;
      AlignHeader(|a.data|);
      var at := Reserve(NLA_HDRLEN + |a.data|);
      ok := at.Some?;
      if ok {
        ghost var before := data[..];
        WriteAt(at.value, Put(a));
        assert data[..len] == before[..at.value] + Put(a);
      }
    }

    /** add_nested_action_end: the length of an attribute, known at last. */
    method EndNested(start: nat, ghost kind: nat, ghost before: Bytes, ghost body: Bytes)
      requires Valid() && start == |before| && |body| % 4 == 0 && Contents() == before + Put(Attr(kind, [])) + body
      modifies data
      ensures Valid() && Contents() == before + Put(Attr(kind, body))
    {
      hide Align, Put;
      EmptyHeader(kind);
      HeaderAndBody(kind, body);
      LengthFits(before, kind, body, len, data.Length);
      ghost var was := data[..];
      WriteAt(start, Le16(len - start));
      HeaderPatched(was, before, kind, body, len);
    }

    /** validate_and_copy_set_tun. */
    method CopySetTunnel(a: Attr, ghost ctx: Ctx, ghost depth: nat) returns (e: Option<Error>)
      requires Valid() && IsSetTunnel(a)
      modifies this`data, this`len, this`memory, data
      ensures Valid() && data.Length >= old(data.Length) && fresh({data} - {old(data)}) && old(Contents()) <= Contents()
      ensures e == Some(Invalid) ==> CopyOne(ctx, a, depth) == None
      ensures e.None? ==> CopyOne(ctx, a, depth).Some? && Contents() == old(Contents()) + Put(CopyOne(ctx, a, depth).value)
    {
      hide Align, Put, TunFrom, TunBytes, First, AttrOk;
      var t := TunFromNlattr(First(a.data).data);
      if t.None? {
        return Some(Invalid);
      }
      TunFromSized(First(a.data).data);
      var inner := Attr(IPV4_TUNNEL, TunBytes(t.value));
      ghost var before := Contents();
      var start := len;
      AlignTwenty();
      var ok := AddAction(Attr(SET, []));
      if !ok {
        return Some(NoSpace);
      }
      ok := AddAction(inner);
      if !ok {
        return Some(NoSpace);
      }
      PutAligned(inner);
      EndNested(start, SET, before, Put(inner));
      e := None;
    }

    /** The headers and the probability of a sample. */
    method OpenSample(p: Attr) returns (ok: bool)
      requires Valid() && |p.data| == 4
      modifies this`data, this`len, this`memory, data
      ensures Valid() && data.Length >= old(data.Length) && fresh({data} - {old(data)}) && old(Contents()) <= Contents()
      ensures ok ==> Contents() == old(Contents()) + Put(Attr(SAMPLE, [])) + Put(p) + Put(Attr(ACTIONS, []))
    {
      hide Align, Put;
      AlignTwenty();
      ok := AddAction(Attr(SAMPLE, []));
      if ok {
        ok := AddAction(p);
      }
      if ok {
        ok := AddAction(Attr(ACTIONS, []));
      }
    }

    /** The lengths of a sample and of its list, inside out. */
    method CloseSample(start: nat, inside: nat, ghost before: Bytes, ghost p: Attr, ghost body: Bytes)
      requires Valid() && start == |before| && inside == start + NLA_HDRLEN + |Put(p)| && |p.data| == 4 && p.kind == PROBABILITY
      requires Contents() == before + Put(Attr(SAMPLE, [])) + Put(p) + Put(Attr(ACTIONS, [])) + body && |body| % 4 == 0
      modifies data
      ensures Valid() && Contents() == before + Put(SampleAttr(p.data, body)) && |body| <= MAX_NESTED
    {
      hide Align, Put, PutAll;
      AlignTwenty();
      ghost var middle := before + Put(Attr(SAMPLE, [])) + Put(p);
      assert |body| <= MAX_NESTED;
      EndNested(inside, ACTIONS, middle, body);
      SampleBody(p, Attr(ACTIONS, body));
      assert Contents() == before + Put(Attr(SAMPLE, [])) + PutAll([p, Attr(ACTIONS, body)]);
      EndNested(start, SAMPLE, before, PutAll([p, Attr(ACTIONS, body)]));
    }

    /** validate_and_copy_sample. */
    method CopySample(ctx: Ctx, a: Attr, depth: nat) returns (e: Option<Error>)
      requires Valid() && a.kind == SAMPLE && depth < SAMPLE_ACTION_DEPTH && |a.data| <= data.Length
      modifies this`data, this`len, this`memory, data
      ensures Valid() && data.Length >= old(data.Length) && fresh({data} - {old(data)}) && old(Contents()) <= Contents()
      ensures e == Some(Invalid) ==> CopyOne(ctx, a, depth) == None
      ensures e.None? ==> CopyOne(ctx, a, depth).Some? && Contents() == old(Contents()) + Put(CopyOne(ctx, a, depth).value)
      decreases SAMPLE_ACTION_DEPTH - depth, 0
    {
      hide Align, Put, Parts, PutAll, SampleAttr, CopyOne, ActionNetlink.CopyActions;
      SampleIs(ctx, a, depth);
      var parts := Parts(a.data);
      if parts.None? {
        return Some(Invalid);
      }
      PartsSmaller(a.data);
      PartsLen(a.data);
      var p := Attr(PROBABILITY, parts.value.probability);
      ghost var before := Contents();
      var start := len;
      AlignTwenty();
      var ok := OpenSample(p);
      if !ok {
        return Some(NoSpace);
      }
      e := CopyActions(ctx, parts.value.actions, depth + 1);
      if e.None? {
        ghost var nested := ActionNetlink.CopyActions(ctx, parts.value.actions, depth + 1).value;
        PutAllAligned(nested);
        CloseSample(start, start + 12, before, p, PutAll(nested));
      }
    }

    /** ovs_nla_copy_actions: on success the list, checked and changed, is at
        the end of the buffer; what was there before stays in any case. */
    method CopyActions(ctx: Ctx, b: Bytes, depth: nat) returns (e: Option<Error>)
      requires Valid() && |b| <= data.Length
      modifies this`data, this`len, this`memory, data
      ensures Valid() && data.Length >= old(data.Length) && fresh({data} - {old(data)}) && old(Contents()) <= Contents()
      ensures e == Some(Invalid) ==> ActionNetlink.CopyActions(ctx, b, depth) == None
      ensures var l := ActionNetlink.CopyActions(ctx, b, depth);
              e.None? ==> l.Some? && Contents() == old(Contents()) + PutAll(l.value)
      decreases SAMPLE_ACTION_DEPTH - depth, 2
    {
      hide Align, Put, PutAll, CopyOne, CopyList, First, Rest, AttrOk, Remainder, Attrs, Ahead, LenOf;
      if depth >= SAMPLE_ACTION_DEPTH {
        return Some(Invalid);
      }
      var rest, rem := b, |b| as int;
      ghost var done: seq<Attr> := [];
      NothingPut();
      AheadNothing(CopyList(ctx, Attrs(b), depth));
      assert old(Contents()) == old(Contents()) + [];
      if !AttrOk(b) {
        NoAttrs(b);
      }
      while AttrOk(rest)
        invariant |rest| <= |b| <= data.Length && Valid() && data.Length >= old(data.Length) && fresh({data} - {old(data)})
        invariant Contents() == old(Contents()) + PutAll(done)
        invariant CopyList(ctx, Attrs(b), depth) == Ahead(done, CopyList(ctx, Attrs(rest), depth))
        invariant Remainder(b) == if AttrOk(rest) then Remainder(rest) else rem
        invariant AttrOk(rest) ==> rem == |rest|
        decreases |rest|
      {
        AttrsStep(rest);
        FirstSmaller(rest);
        ghost var c := CopyOne(ctx, First(rest), depth);
        CopyStep(ctx, Attrs(rest), depth, done);
        NothingBehind(done);
        e := CopyAction(ctx, First(rest), depth);
        if e.Some? {
          return;
        }
        PutMore(old(Contents()), done, c.value);
        done := done + [c.value];
        rem := |rest| - Align(LenOf(rest));
        rest := Rest(rest);
      }
      NoAttrs(rest);
      CopyNothing(ctx, depth);
      NothingBehind(done);
      e := if rem > 0 then Some(Invalid) else None;
    }

    /** One action of the list. */
    method CopyAction(ctx: Ctx, a: Attr, depth: nat) returns (e: Option<Error>)
      requires Valid() && depth < SAMPLE_ACTION_DEPTH && NLA_HDRLEN + |a.data| <= data.Length && Fits(a)
      modifies this`data, this`len, this`memory, data
      ensures Valid() && data.Length >= old(data.Length) && fresh({data} - {old(data)}) && old(Contents()) <= Contents()
      ensures e == Some(Invalid) ==> CopyOne(ctx, a, depth) == None
      ensures e.None? ==> CopyOne(ctx, a, depth).Some? && Contents() == old(Contents()) + Put(CopyOne(ctx, a, depth).value)
      decreases SAMPLE_ACTION_DEPTH - depth, 1
    {
      hide Align, Put, PlainOk, TunFrom, TunBytes, First, AttrOk, Parts, CopyList;
      if a.kind == SAMPLE {
        e := CopySample(ctx, a, depth);
      } else if IsSetTunnel(a) {
        e := CopySetTunnel(a, ctx, depth);
      } else if PlainOk(ctx, a) {
        var ok := AddAction(a);
        e := if ok then None else Some(NoSpace);
      } else {
        e := Some(Invalid);
      }
    }
  }

  /** A list copied so far, ahead of the rest. */
  function Ahead(done: seq<Attr>, rest: Option<seq<Attr>>): Option<seq<Attr>> {
    if rest.None? then None else Some(done + rest.value)
  }

  lemma AheadNothing(l: Option<seq<Attr>>)
    ensures Ahead([], l) == l
  {
    if l.Some? {
      assert [] + l.value == l.value;
    }
  }

  lemma NothingBehind(done: seq<Attr>)
    ensures Ahead(done, None) == None && Ahead(done, Some([])) == Some(done)
  {
    assert done + [] == done;
  }

  lemma PutMore(before: Bytes, done: seq<Attr>, a: Attr)
    ensures before + PutAll(done) + Put(a) == before + PutAll(done + [a])
  {
    hide Put, PutAll;
    NothingPut();
    PutAllAppend(done, [a]);
    PutAllCons(a, []);
    assert [a] + [] == [a] && Put(a) + [] == Put(a);
    assert before + PutAll(done) + Put(a) == before + (PutAll(done) + Put(a));
  }

  lemma CopyStep(ctx: Ctx, l: seq<Attr>, depth: nat, done: seq<Attr>)
    requires l != []
    ensures var c := CopyOne(ctx, l[0], depth);
            if c.None? then CopyList(ctx, l, depth) == None
            else Ahead(done, CopyList(ctx, l, depth)) == Ahead(done + [c.value], CopyList(ctx, l[1..], depth))
  {
    hide CopyOne;
    var c, rest := CopyOne(ctx, l[0], depth), CopyList(ctx, l[1..], depth);
    if c.Some? && rest.Some? {
      assert done + ([c.value] + rest.value) == done + [c.value] + rest.value;
    }
  }

  lemma CopyNothing(ctx: Ctx, depth: nat)
    ensures CopyList(ctx, [], depth) == Some([])
  {
  }

  lemma SampleIs(ctx: Ctx, a: Attr, depth: nat)
    requires a.kind == SAMPLE
    ensures var s := Parts(a.data);
            && (s.None? ==> CopyOne(ctx, a, depth) == None)
            && (s.Some? && ActionNetlink.CopyActions(ctx, s.value.actions, depth + 1) == None ==> CopyOne(ctx, a, depth) == None)
    ensures var s := Parts(a.data);
            s.Some? && ActionNetlink.CopyActions(ctx, s.value.actions, depth + 1).Some? ==>
              (var l := PutAll(ActionNetlink.CopyActions(ctx, s.value.actions, depth + 1).value);
               |l| <= MAX_NESTED ==> CopyOne(ctx, a, depth) == Some(SampleAttr(s.value.probability, l)))
  {
    hide Parts, PutAll, SampleAttr, Attrs, Remainder;
  }

  lemma SampleBody(p: Attr, acts: Attr)
    requires Fits(p) && Fits(acts)
    ensures PutAll([p, acts]) == Put(p) + Put(acts) && |PutAll([p, acts])| % 4 == 0
  {
    hide Put;
    PutAllCons(p, [acts]);
    PutAllCons(acts, []);
    NothingPut();
    assert [p] + [acts] == [p, acts] && [acts] + [] == [acts] && Put(acts) + [] == Put(acts);
    PutAllAligned([p, acts]);
  }

  lemma AlignTwenty()
    ensures Align(20) == 20 && Align(4) == 4 && Align(0) == 0
  {
  }

  /** Only the length in the header changes. */
  lemma HeaderPatched(was: Bytes, before: Bytes, kind: nat, body: Bytes, len: nat)
    requires len <= |was| && was[..len] == before + (Le16(NLA_HDRLEN) + Le16(kind)) + body
    ensures |before| + 2 <= len
    ensures Over(was, |before|, Le16(NLA_HDRLEN + |body|))[..len] == before + (Le16(NLA_HDRLEN + |body|) + Le16(kind) + body)
  {
    hide Le16;
    var s, n := |before|, NLA_HDRLEN + |body|;
    var now := Over(was, s, Le16(n));
    assert was[..len][..s] == before && was[..len][s + 2..] == Le16(kind) + body;
    assert now[..len] == was[..len][..s] + Le16(n) + was[..len][s + 2..];
  }

  lemma LengthFits(before: Bytes, kind: nat, body: Bytes, len: nat, room: nat)
    requires len == |before + Put(Attr(kind, [])) + body| && len <= room
    ensures len - |before| == NLA_HDRLEN + |body|
  {
    hide Put;
    EmptyHeader(kind);
  }
}
