/** Action lists as Netlink attributes: the checks and changes made when user
    space hands one in, and what is given back when it asks for it. */
module ActionNetlink {
  import opened FlowKeyNetlink
  import opened Netlink
  import opened Options

  const SAMPLE_ACTION_DEPTH: nat := 3
  const ACTION_ATTR_MAX: nat := 10

  /** So much fits in an attribute, with the headers around it. */
  const MAX_NESTED: nat := 65504

  const OUTPUT: nat := 1
  const USERSPACE: nat := 2
  const SET: nat := 3
  const PUSH_VLAN: nat := 4
  const POP_VLAN: nat := 5
  const SAMPLE: nat := 6
  const RECIRC: nat := 7
  const HASH: nat := 8

  const PROBABILITY: nat := 1
  const ACTIONS: nat := 2

  /** The kind of attribute that holds a tunnel inside the kernel. */
  const IPV4_TUNNEL: nat := 21

  /** The flow the actions are for, and the check of the arguments of an
      upcall. */
  datatype Ctx = Ctx(key: Key, userspaceOk: Bytes -> bool)

  // ------------------------------------------------ a tunnel inside the kernel

  function TunBytes(t: Tunnel): (r: Bytes)
    requires TunSized(t)
    ensures |r| == 20
  {
    t.id + t.src + t.dst + [if t.df then 1 else 0, (if t.csum then 1 else 0) + (if t.hasKey then 4 else 0), t.tos, t.ttl]
  }

  function TunOf(b: Bytes): Tunnel
    requires |b| == 20
  {
    Tunnel(b[..8], b[8..12], b[12..16], b[18], b[19], b[17] / 4 % 2 == 1, b[16] % 2 == 1, b[17] % 2 == 1, 0)
  }

  lemma TunBytesBack(t: Tunnel)
    requires TunSized(t) && t.otherFlags == 0
    ensures TunOf(TunBytes(t)) == t
  {
    var b := TunBytes(t);
    assert b[..8] == t.id && b[8..12] == t.src && b[12..16] == t.dst;
  }

  // ------------------------------------------------ validation

  /** The one attribute in a set action. */
  predicate SingleKey(d: Bytes) {
    AttrOk(d) && Align(LenOf(d)) == |d|
  }

  predicate PortsOk(k: Key, proto: nat) {
    k.ip.proto == proto && IsIp(k) && !(IsZero(k.tp.src) && IsZero(k.tp.dst))
  }

  /** validate_set, but for tunnels. */
  predicate SetOk(k: Key, a: Attr) {
    LenOk(a.kind, a.data) &&
    (if a.kind in {PRIORITY, SKB_MARK, ETHERNET} then true
     else if a.kind == IPV4 then
       k.eth.kind == ETH_IP && k.ip.proto != 0 && a.data[8] == k.ip.proto && a.data[11] == k.ip.frag
     else if a.kind == IPV6 then
       && k.eth.kind == ETH_IPV6 && k.ip.proto != 0 && a.data[36] == k.ip.proto && a.data[39] == k.ip.frag
       && a.data[32] == 0 && a.data[33] < 16
     else if a.kind == TCP then PortsOk(k, 6)
     else if a.kind == UDP then PortsOk(k, 17)
     else if a.kind == SCTP then PortsOk(k, 132)
     else false)
  }

  /** The actions that are copied as they are. */
  predicate PlainOk(ctx: Ctx, a: Attr) {
    if a.kind == OUTPUT then |a.data| == 4 && U32(a.data) < DP_MAX_PORTS
    else if a.kind == USERSPACE then ctx.userspaceOk(a.data)
    else if a.kind == PUSH_VLAN then |a.data| == 4 && a.data[..2] == ETH_8021Q && Present(a.data[2..])
    else if a.kind == POP_VLAN then a.data == []
    else if a.kind == RECIRC then |a.data| == 4
    else if a.kind == HASH then |a.data| == 8 && U32(a.data[..4]) == 0
    else a.kind == SET && SingleKey(a.data) && SetOk(ctx.key, First(a.data))
  }

  predicate IsSetTunnel(a: Attr) {
    a.kind == SET && SingleKey(a.data) && First(a.data).kind == TUNNEL
  }

  datatype SampleParts = SampleParts(probability: Bytes, actions: Bytes)

  /** The attribute of one kind in a sample; no kind may come twice. */
  function PartOf(l: seq<Attr>, kind: nat): Option<Bytes> {
    if l == [] then None else if l[0].kind == kind then Some(l[0].data) else PartOf(l[1..], kind)
  }

  predicate PartsOk(l: seq<Attr>) {
    && (forall i :: 0 <= i < |l| ==> l[i].kind in {PROBABILITY, ACTIONS})
    && (forall i, j :: 0 <= i < j < |l| ==> l[i].kind != l[j].kind)
  }

  /** The first half of validate_and_copy_sample. */
  function Parts(d: Bytes): Option<SampleParts> {
    var l := Attrs(d);
    var p, acts := PartOf(l, PROBABILITY), PartOf(l, ACTIONS);
    if PartsOk(l) && Remainder(d) == 0 && p.Some? && |p.value| == 4 && acts.Some? && (acts.value == [] || |acts.value| >= NLA_HDRLEN)
    then Some(SampleParts(p.value, acts.value)) else None
  }

  // ------------------------------------------------ the copy

  function SampleAttr(p: Bytes, acts: Bytes): Attr {
    Attr(SAMPLE, PutAll([Attr(PROBABILITY, p), Attr(ACTIONS, acts)]))
  }

  /** What is stored for one action, None where it is refused. */
  function CopyOne(ctx: Ctx, a: Attr, depth: nat): Option<Attr>
    decreases SAMPLE_ACTION_DEPTH - depth, 0
  {
    if a.kind == SAMPLE then
      var s := Parts(a.data);
      if s.None? || depth + 1 >= SAMPLE_ACTION_DEPTH || Remainder(s.value.actions) > 0 then None else
      var nested := CopyList(ctx, Attrs(s.value.actions), depth + 1);
      if nested.None? || |PutAll(nested.value)| > MAX_NESTED then None
      else Some(SampleAttr(s.value.probability, PutAll(nested.value)))
    else if IsSetTunnel(a) then
      var t := TunFrom(First(a.data).data);
      if t.None? then None else TunFromSized(First(a.data).data); Some(Attr(SET, Put(Attr(IPV4_TUNNEL, TunBytes(t.value)))))
    else if PlainOk(ctx, a) && Fits(a) then Some(a)
    else None
  }

  function CopyList(ctx: Ctx, l: seq<Attr>, depth: nat): Option<seq<Attr>>
    decreases SAMPLE_ACTION_DEPTH - depth, |l| + 1
  {
    if l == [] then Some([]) else
    var a := CopyOne(ctx, l[0], depth);
    if a.None? then None else
    var rest := CopyList(ctx, l[1..], depth);
    if rest.None? then None else Some([a.value] + rest.value)
  }

  /** ovs_nla_copy_actions. */
  function CopyActions(ctx: Ctx, b: Bytes, depth: nat): Option<seq<Attr>> {
    if depth >= SAMPLE_ACTION_DEPTH || Remainder(b) > 0 then None else CopyList(ctx, Attrs(b), depth)
  }

  lemma {:induction false} TunFoldSized(l: seq<Attr>, acc: TunAcc)
    requires TunSized(acc.t) && acc.t.otherFlags == 0 && (!acc.t.hasKey ==> IsZero(acc.t.id))
    ensures var r := TunFold(l, acc);
            r.Some? ==> TunSized(r.value.t) && r.value.t.otherFlags == 0 && (!r.value.t.hasKey ==> IsZero(r.value.t.id))
    decreases |l|
  {
    hide IsZero;
    if l != [] {
      var next := TunStep(acc, l[0]);
      if next.Some? {
        TunFoldSized(l[1..], next.value);
      }
    }
  }

  /** A tunnel that was read can be written. */
  lemma TunFromSized(b: Bytes)
    ensures TunFrom(b).Some? ==> TunWellFormed(TunFrom(b).value)
  {
    hide TunFold, Attrs, Remainder;
    TunFoldSized(Attrs(b), TunAcc(NoTunnel(), false));
  }

  // ------------------------------------------------ and back

  /** set_action_to_attr, for a tunnel. */
  function TunnelAttr(t: Tunnel): Attr {
    Attr(SET, Put(Attr(TUNNEL, PutAll(TunList(t)))))
  }

  /** ovs_nla_put_actions: what user space gets for what is stored. */
  function PutBack(b: Bytes): seq<Attr>
    decreases |b|, 0
  {
    if AttrOk(b) then [BackOne(First(b))] + PutBack(Rest(b)) else []
  }

  function BackOne(a: Attr): Attr
    decreases |a.data|, 2
  {
    if a.kind == SET && AttrOk(a.data) && First(a.data).kind == IPV4_TUNNEL && |First(a.data).data| == 20
    then TunnelAttr(TunOf(First(a.data).data))
    else if a.kind == SAMPLE then Attr(SAMPLE, PutAll(PutBackSample(a.data)))
    else a
  }

  /** sample_action_to_attr. */
  function PutBackSample(b: Bytes): seq<Attr>
    decreases |b|, 1
  {
    if !AttrOk(b) then [] else
    var a := First(b);
    (if a.kind == PROBABILITY then [Attr(PROBABILITY, a.data[..if |a.data| < 4 then |a.data| else 4])]
     else if a.kind == ACTIONS then [Attr(ACTIONS, PutAll(PutBack(a.data)))]
     else [])
    + PutBackSample(Rest(b))
  }

  /** The normal form of an action list as it was handed in: in a sample the
      probability comes first, a tunnel is written in canonical form, and all
      else is as it was. */
  function Normal(b: Bytes): seq<Attr>
    decreases |b|
  {
    if !AttrOk(b) then [] else
    [NormalOne(First(b))] + Normal(Rest(b))
  }

  function NormalOne(a: Attr): Attr
    decreases |a.data|, 1
  {
    if a.kind == SAMPLE && Parts(a.data).Some? then
      PartsSmaller(a.data);
      SampleAttr(Parts(a.data).value.probability, PutAll(Normal(Parts(a.data).value.actions)))
    else if IsSetTunnel(a) && TunFrom(First(a.data).data).Some? then TunnelAttr(TunFrom(First(a.data).data).value)
    else a
  }

  lemma {:induction false} AttrsSmaller(b: Bytes, a: Attr)
    requires a in Attrs(b)
    ensures |a.data| < |b|
    decreases |b|
  {
    if a != First(b) {
      AttrsSmaller(Rest(b), a);
    }
  }

  lemma {:induction false} PartIn(l: seq<Attr>, kind: nat)
    ensures PartOf(l, kind).Some? ==> Attr(kind, PartOf(l, kind).value) in l
  {
    if l != [] && l[0].kind != kind {
      PartIn(l[1..], kind);
    }
  }

  lemma PartsSmaller(d: Bytes)
    requires Parts(d).Some?
    ensures |Parts(d).value.actions| < |d|
  {
    PartIn(Attrs(d), ACTIONS);
    AttrsSmaller(d, Attr(ACTIONS, Parts(d).value.actions));
  }

  // ------------------------------------------------ the round trip

  lemma PutOne(a: Attr)
    requires Fits(a)
    ensures AttrOk(Put(a)) && First(Put(a)) == a && Rest(Put(a)) == []
  {
    hide Put, First, Rest, AttrOk, Fits;
    FirstPut(a, []);
    assert Put(a) + [] == Put(a);
  }

  lemma PutTwo(a: Attr, b: Attr)
    requires Fits(a) && Fits(b)
    ensures var d := PutAll([a, b]);
            AttrOk(d) && First(d) == a && Rest(d) == Put(b) && |d| == |Put(a)| + |Put(b)|
  {
    hide Put, First, Rest, AttrOk, Fits;
    PutAllCons(a, [b]);
    PutAllCons(b, []);
    NothingPut();
    assert [a] + [b] == [a, b] && [b] + [] == [b];
    assert Put(b) + [] == Put(b);
    FirstPut(a, Put(b));
  }

  lemma SampleFits(p: Bytes, acts: Bytes)
    requires |p| == 4 && |acts| <= MAX_NESTED
    ensures Fits(Attr(PROBABILITY, p)) && Fits(Attr(ACTIONS, acts)) && Fits(SampleAttr(p, acts))
  {
    hide Put, First, Rest, AttrOk;
    PutTwo(Attr(PROBABILITY, p), Attr(ACTIONS, acts));
    assert Align(4) == 4;
  }

  /** Giving back a stored sample. */
  lemma BackSample(p: Bytes, acts: Bytes)
    requires |p| == 4 && |acts| <= MAX_NESTED
    ensures BackOne(SampleAttr(p, acts)) == SampleAttr(p, PutAll(PutBack(acts)))
  {
    hide Put, First, Rest, AttrOk, PutAll, PutBack, Fits;
    var a, b := Attr(PROBABILITY, p), Attr(ACTIONS, acts);
    SampleFits(p, acts);
    PutTwo(a, b);
    PutOne(b);
    NothingLeft();
    var d := PutAll([a, b]);
    assert p[..4] == p;
    assert PutBackSample(Put(b)) == [Attr(ACTIONS, PutAll(PutBack(acts)))] + PutBackSample([]);
    assert PutBackSample([]) == [];
    assert PutBackSample(d) == [a] + PutBackSample(Put(b));
    assert PutBackSample(d) == [a, Attr(ACTIONS, PutAll(PutBack(acts)))];
  }

  /** Giving back a stored tunnel. */
  lemma BackTunnel(t: Tunnel)
    requires TunWellFormed(t)
    ensures Fits(Attr(SET, Put(Attr(IPV4_TUNNEL, TunBytes(t)))))
    ensures BackOne(Attr(SET, Put(Attr(IPV4_TUNNEL, TunBytes(t))))) == TunnelAttr(t)
  {
    hide Put, First, Rest, AttrOk, TunnelAttr, TunOf, TunBytes;
    PutOne(Attr(IPV4_TUNNEL, TunBytes(t)));
    TunBytesBack(t);
  }

  lemma BackPlain(ctx: Ctx, a: Attr)
    requires PlainOk(ctx, a) && !IsSetTunnel(a) && a.kind != SAMPLE
    ensures BackOne(a) == a && NormalOne(a) == a
  {
    hide Present, U32, IsZero, First, AttrOk, TunFrom;
  }

  lemma {:induction false} BackOneOk(ctx: Ctx, a: Attr, depth: nat)
    requires CopyOne(ctx, a, depth).Some?
    ensures Fits(CopyOne(ctx, a, depth).value) && BackOne(CopyOne(ctx, a, depth).value) == NormalOne(a)
    decreases |a.data|, 1
  {
    hide Parts, PlainOk, BackOne, TunFrom, Attrs, Remainder, PutAll, Put, First, AttrOk, SampleAttr, TunnelAttr, TunBytes, TunSized, CopyList, Fits;
    if a.kind == SAMPLE {
      var s := Parts(a.data).value;
      PartsSmaller(a.data);
      PartsLen(a.data);
      BackListOk(ctx, s.actions, depth + 1);
      var nested := CopyList(ctx, Attrs(s.actions), depth + 1).value;
      BackSample(s.probability, PutAll(nested));
      SampleFits(s.probability, PutAll(nested));
    } else if IsSetTunnel(a) {
      TunFromSized(First(a.data).data);
      BackTunnel(TunFrom(First(a.data).data).value);
    } else {
      BackPlain(ctx, a);
    }
  }

  lemma PartsLen(d: Bytes)
    requires Parts(d).Some?
    ensures |Parts(d).value.probability| == 4
  {
  }

  lemma {:induction false} BackListOk(ctx: Ctx, b: Bytes, depth: nat)
    requires CopyList(ctx, Attrs(b), depth).Some?
    ensures PutBack(PutAll(CopyList(ctx, Attrs(b), depth).value)) == Normal(b)
    decreases |b|, 0
  {
    hide CopyOne, BackOne, NormalOne, Put, First, Rest, AttrOk, PutAll, Fits, Attrs;
    var l := CopyList(ctx, Attrs(b), depth).value;
    if !AttrOk(b) {
      NoAttrs(b);
      NothingPut();
      NothingLeft();
    } else {
      AttrsStep(b);
      FirstSmaller(b);
      var c := CopyOne(ctx, First(b), depth).value;
      var rest := CopyList(ctx, Attrs(Rest(b)), depth).value;
      BackOneOk(ctx, First(b), depth);
      BackListOk(ctx, Rest(b), depth);
      assert l == [c] + rest;
      PutAllCons(c, rest);
      FirstPut(c, PutAll(rest));
    }
  }

  lemma FirstSmaller(b: Bytes)
    requires AttrOk(b)
    ensures NLA_HDRLEN + |First(b).data| <= |b| && Fits(First(b))
  {
  }

  lemma NoAttrs(b: Bytes)
    requires !AttrOk(b)
    ensures Attrs(b) == [] && Remainder(b) == |b|
  {
  }

  /** An accepted list comes back as it was handed in, up to padding, the
      order inside a sample, and the form of tunnels. */
  lemma ActionsRoundTrip(ctx: Ctx, b: Bytes)
    requires CopyActions(ctx, b, 0).Some?
    ensures PutBack(PutAll(CopyActions(ctx, b, 0).value)) == Normal(b)
  {
    hide CopyList, PutBack, Normal;
    BackListOk(ctx, b, 0);
  }

  /** A tunnel in canonical form is read as the same tunnel. */
  lemma CanonicalTunnel(a: Attr)
    requires IsSetTunnel(a) && TunFrom(First(a.data).data).Some?
    ensures IsSetTunnel(NormalOne(a)) && TunFrom(First(NormalOne(a).data).data) == TunFrom(First(a.data).data)
  {
    hide TunFrom, TunList, PutAll, First, Put, AttrOk;
    var t := TunFrom(First(a.data).data).value;
    TunFromSized(First(a.data).data);
    TunReadBack(t);
    TunRoundTrip(t);
    var inner := Attr(TUNNEL, PutAll(TunList(t)));
    PutOne(inner);
    PutIsSingle(inner);
  }

  lemma PutIsSingle(a: Attr)
    requires Fits(a)
    ensures SingleKey(Put(a))
  {
    hide Align, Le16, U16;
    var d, n := Put(a), NLA_HDRLEN + |a.data|;
    Le16RoundTrip(n);
    assert d[0] == Le16(n)[0] && d[1] == Le16(n)[1];
    AlignHeader(|a.data|);
  }
}
