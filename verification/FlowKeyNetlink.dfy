/** Flow keys as Netlink attributes: how a key is written and how it is read
    back.  Multi-byte fields are kept as the bytes they are. */
module FlowKeyNetlink {
  import opened Netlink
  import opened Options

  const DP_MAX_PORTS: nat := 0xffff
  const ETH_P_802_3_MIN: nat := 0x600
  const FRAG_LATER: nat := 2
  const KEY_ATTR_MAX: nat := 62

  const ENCAP: nat := 1
  const PRIORITY: nat := 2
  const IN_PORT: nat := 3
  const ETHERNET: nat := 4
  const VLAN: nat := 5
  const ETHERTYPE: nat := 6
  const IPV4: nat := 7
  const IPV6: nat := 8
  const TCP: nat := 9
  const UDP: nat := 10
  const ICMP: nat := 11
  const ICMPV6: nat := 12
  const ARP: nat := 13
  const ND: nat := 14
  const SKB_MARK: nat := 15
  const TUNNEL: nat := 16
  const SCTP: nat := 17
  const TCP_FLAGS: nat := 18
  const DP_HASH: nat := 19
  const RECIRC_ID: nat := 20

  const ETH_IP: Bytes := [0x08, 0x00]
  const ETH_IPV6: Bytes := [0x86, 0xdd]
  const ETH_ARP: Bytes := [0x08, 0x06]
  const ETH_RARP: Bytes := [0x80, 0x35]
  const ETH_8021Q: Bytes := [0x81, 0x00]
  const ETH_802_2: Bytes := [0x00, 0x04]

  datatype Tunnel = Tunnel(id: Bytes, src: Bytes, dst: Bytes, tos: Byte, ttl: Byte, hasKey: bool, df: bool, csum: bool, otherFlags: nat)

  datatype Meta = Meta(tun: Tunnel, priority: Bytes, mark: Bytes, inPort: nat, hash: Bytes, recirc: Bytes)

  datatype Eth = Eth(src: Bytes, dst: Bytes, tci: Bytes, kind: Bytes)

  datatype Ip = Ip(proto: Byte, tos: Byte, ttl: Byte, frag: Byte)

  datatype Tp = Tp(src: Bytes, dst: Bytes, flags: Bytes)

  /** The key; 'l3' is the union of its IPv4, ARP and IPv6 parts, 64 bytes. */
  datatype Key = Key(meta: Meta, eth: Eth, ip: Ip, tp: Tp, l3: Bytes)

  function Be16(b: Bytes): nat
    requires |b| == 2
  {
    U16(b[1], b[0])
  }

  /** The VLAN_TAG_PRESENT bit. */
  predicate Present(tci: Bytes)
    requires |tci| == 2
  {
    tci[0] / 16 % 2 == 1
  }

  predicate IsZero(b: Bytes) {
    forall i :: 0 <= i < |b| ==> b[i] == 0
  }

  // ------------------------------------------------ the tunnel

  const TUN_ID: nat := 0
  const TUN_SRC: nat := 1
  const TUN_DST: nat := 2
  const TUN_TOS: nat := 3
  const TUN_TTL: nat := 4
  const TUN_DF: nat := 5
  const TUN_CSUM: nat := 6

  function NoTunnel(): Tunnel {
    Tunnel(Zeros(8), Zeros(4), Zeros(4), 0, 0, false, false, false, 0)
  }

  function Maybe(c: bool, kind: nat, data: Bytes): seq<Attr> {
    if c then [Attr(kind, data)] else []
  }

  /** ipv4_tun_to_nlattr. */
  function TunList(t: Tunnel): seq<Attr> {
    Maybe(t.hasKey, TUN_ID, t.id) + Maybe(!IsZero(t.src), TUN_SRC, t.src) + Maybe(!IsZero(t.dst), TUN_DST, t.dst)
    + Maybe(t.tos != 0, TUN_TOS, [t.tos]) + [Attr(TUN_TTL, [t.ttl])] + Maybe(t.df, TUN_DF, []) + Maybe(t.csum, TUN_CSUM, [])
  }

  function TunLen(kind: nat): nat {
    if kind == TUN_ID then 8 else if kind == TUN_SRC || kind == TUN_DST then 4
    else if kind == TUN_TOS || kind == TUN_TTL then 1 else 0
  }

  datatype TunAcc = TunAcc(t: Tunnel, ttl: bool)

  /** One attribute of a tunnel. */
  function TunStep(acc: TunAcc, a: Attr): Option<TunAcc> {
    if a.kind > TUN_CSUM || |a.data| != TunLen(a.kind) then None
    else if a.kind == TUN_ID then Some(acc.(t := acc.t.(id := a.data, hasKey := true)))
    else if a.kind == TUN_SRC then Some(acc.(t := acc.t.(src := a.data)))
    else if a.kind == TUN_DST then Some(acc.(t := acc.t.(dst := a.data)))
    else if a.kind == TUN_TOS then Some(acc.(t := acc.t.(tos := a.data[0])))
    else if a.kind == TUN_TTL then Some(acc.(t := acc.t.(ttl := a.data[0]), ttl := true))
    else if a.kind == TUN_DF then Some(acc.(t := acc.t.(df := true)))
    else Some(acc.(t := acc.t.(csum := true)))
  }

  function TunFold(l: seq<Attr>, acc: TunAcc): Option<TunAcc> {
    if l == [] then Some(acc)
    else match TunStep(acc, l[0])
      case None => None
      case Some(next) => TunFold(l[1..], next)
  }

  /** What ipv4_tun_from_nlattr makes of a tunnel's attributes. */
  function TunFrom(b: Bytes): Option<Tunnel> {
    match TunFold(Attrs(b), TunAcc(NoTunnel(), false))
    case None => None
    case Some(acc) => if Remainder(b) > 0 || IsZero(acc.t.dst) || !acc.ttl then None else Some(acc.t)
  }

  /** The loop itself. */
  method TunFromNlattr(b: Bytes) returns (r: Option<Tunnel>)
    ensures r == TunFrom(b)
  {
    hide TunStep, First, Rest, AttrOk, IsZero, Align;
    var acc, rest, rem := TunAcc(NoTunnel(), false), b, |b| as int;
    while AttrOk(rest)
      invariant TunFold(Attrs(b), TunAcc(NoTunnel(), false)) == TunFold(Attrs(rest), acc)
      invariant Remainder(b) == if AttrOk(rest) then Remainder(rest) else rem
      invariant AttrOk(rest) ==> rem == |rest|
      decreases |rest|
    {
      AttrsStep(rest);
      match TunStep(acc, First(rest))
      case None =>
        return None;
      case Some(next) =>
        acc := next;
        rem := |rest| - Align(LenOf(rest));
        rest := Rest(rest);
    }
    if rem > 0 || IsZero(acc.t.dst) || !acc.ttl {
      return None;
    }
    r := Some(acc.t);
  }

  lemma AttrsStep(b: Bytes)
    requires AttrOk(b)
    ensures |b| >= NLA_HDRLEN && Attrs(b) != [] && Attrs(b)[0] == First(b) && Attrs(b)[1..] == Attrs(Rest(b))
    ensures Remainder(b) == if AttrOk(Rest(b)) then Remainder(Rest(b)) else |b| - Align(LenOf(b))
    ensures AttrOk(Rest(b)) ==> |b| - Align(LenOf(b)) == |Rest(b)|
  {
    hide First, Align;
  }

  lemma {:induction false} TunFoldAppend(l: seq<Attr>, m: seq<Attr>, acc: TunAcc)
    ensures TunFold(l + m, acc) == match TunFold(l, acc) case None => None case Some(next) => TunFold(m, next)
  {
    hide TunStep;
    if l == [] {
      assert l + m == m;
    } else {
      assert (l + m)[1..] == l[1..] + m;
      var next := TunStep(acc, l[0]);
      if next.Some? {
        TunFoldAppend(l[1..], m, next.value);
      }
    }
  }

  predicate TunSized(t: Tunnel) {
    |t.id| == 8 && |t.src| == |t.dst| == 4
  }

  /** A tunnel that the attributes can express. */
  predicate TunWellFormed(t: Tunnel) {
    TunSized(t) && t.otherFlags == 0 && (!t.hasKey ==> IsZero(t.id)) && !IsZero(t.dst)
  }

  lemma ZeroBytes(b: Bytes)
    ensures IsZero(b) ==> b == Zeros(|b|)
  {
  }

  lemma FoldOne(c: bool, kind: nat, data: Bytes, m: seq<Attr>, acc: TunAcc)
    requires kind <= TUN_CSUM && |data| == TunLen(kind)
    ensures TunFold(Maybe(c, kind, data) + m, acc)
         == TunFold(m, if c then TunStep(acc, Attr(kind, data)).value else acc)
  {
    hide TunStep;
    TunStepTaken(acc, Attr(kind, data));
    TunFoldAppend(Maybe(c, kind, data), m, acc);
    assert [Attr(kind, data)][1..] == [];
  }

  lemma TunStepTaken(acc: TunAcc, a: Attr)
    requires a.kind <= TUN_CSUM && |a.data| == TunLen(a.kind)
    ensures TunStep(acc, a).Some?
  {
  }

  /** What the attributes of any tunnel with a destination are read as. */
  function TunRead(t: Tunnel): Tunnel {
    t.(id := if t.hasKey then t.id else Zeros(8), otherFlags := 0)
  }

  lemma TunReadBack(t: Tunnel)
    requires TunSized(t)
    ensures |PutAll(TunList(t))| <= 105
    ensures !IsZero(t.dst) ==> TunFrom(PutAll(TunList(t))) == Some(TunRead(t))
  {
    hide TunFold, PutAll, Attrs, Remainder, IsZero, Zeros, Maybe;
    var l := TunList(t);
    TunListFits(t);
    AttrsPutAll(l);
    PutAllBound(l, 8);
    TunListFold(t);
    ZeroBytes(t.src);
  }

  /** A tunnel is read back as it was exactly if the attributes can express it. */
  lemma TunRoundTrip(t: Tunnel)
    requires TunSized(t) && !IsZero(t.dst)
    ensures TunFrom(PutAll(TunList(t))) == Some(t) <==> TunWellFormed(t)
  {
    hide TunFrom, PutAll, TunList;
    TunReadBack(t);
    ZeroBytes(t.id);
  }

  lemma TunListFits(t: Tunnel)
    requires TunSized(t)
    ensures |TunList(t)| <= 7 && forall a :: a in TunList(t) ==> Fits(a) && |a.data| <= 8
  {
    hide IsZero;
  }

  function TunTail(t: Tunnel): seq<Attr> {
    Maybe(t.tos != 0, TUN_TOS, [t.tos]) + (Maybe(true, TUN_TTL, [t.ttl]) + (Maybe(t.df, TUN_DF, []) + Maybe(t.csum, TUN_CSUM, [])))
  }

  lemma TunTailFold(t: Tunnel, a3: TunAcc)
    requires a3.t.tos == 0 && !a3.t.df && !a3.t.csum
    ensures TunFold(TunTail(t), a3) == Some(TunAcc(a3.t.(tos := t.tos, ttl := t.ttl, df := t.df, csum := t.csum), true))
  {
    hide TunFold, Maybe;
    var m7 := Maybe(t.csum, TUN_CSUM, []);
    var m6 := Maybe(t.df, TUN_DF, []) + m7;
    var m5 := Maybe(true, TUN_TTL, [t.ttl]) + m6;
    var a4 := a3.(t := a3.t.(tos := t.tos));
    FoldOne(t.tos != 0, TUN_TOS, [t.tos], m5, a3);
    var a5 := a4.(t := a4.t.(ttl := t.ttl), ttl := true);
    FoldOne(true, TUN_TTL, [t.ttl], m6, a4);
    var a6 := a5.(t := a5.t.(df := t.df));
    FoldOne(t.df, TUN_DF, [], m7, a5);
    FoldOne(t.csum, TUN_CSUM, [], [], a6);
    assert m7 + [] == m7;
    TunFoldNone(a6.(t := a6.t.(csum := t.csum)));
  }

  /** Reading the attributes in the order they were written. */
  lemma TunListFold(t: Tunnel)
    requires TunSized(t)
    ensures TunFold(TunList(t), TunAcc(NoTunnel(), false))
         == Some(TunAcc(Tunnel(if t.hasKey then t.id else Zeros(8), if IsZero(t.src) then Zeros(4) else t.src,
                               if IsZero(t.dst) then Zeros(4) else t.dst, t.tos, t.ttl, t.hasKey, t.df, t.csum, 0), true))
  {
    hide TunFold, IsZero, Zeros, Maybe, TunTail;
    var m4 := TunTail(t);
    var m3 := Maybe(!IsZero(t.dst), TUN_DST, t.dst) + m4;
    var m2 := Maybe(!IsZero(t.src), TUN_SRC, t.src) + m3;
    TunListIs(t);
    var a0 := TunAcc(NoTunnel(), false);
    var a1 := if t.hasKey then a0.(t := a0.t.(id := t.id, hasKey := true)) else a0;
    FoldOne(t.hasKey, TUN_ID, t.id, m2, a0);
    var a2 := if IsZero(t.src) then a1 else a1.(t := a1.t.(src := t.src));
    FoldOne(!IsZero(t.src), TUN_SRC, t.src, m3, a1);
    var a3 := if IsZero(t.dst) then a2 else a2.(t := a2.t.(dst := t.dst));
    FoldOne(!IsZero(t.dst), TUN_DST, t.dst, m4, a2);
    TunTailFold(t, a3);
  }

  lemma TunListIs(t: Tunnel)
    ensures TunList(t) == Maybe(t.hasKey, TUN_ID, t.id)
                        + (Maybe(!IsZero(t.src), TUN_SRC, t.src) + (Maybe(!IsZero(t.dst), TUN_DST, t.dst) + TunTail(t)))
  {
    hide IsZero, Maybe;
    MaybeTrue(TUN_TTL, [t.ttl]);
  }

  lemma MaybeTrue(kind: nat, data: Bytes)
    ensures Maybe(true, kind, data) == [Attr(kind, data)]
  {
  }

  lemma TunFoldNone(acc: TunAcc)
    ensures TunFold([], acc) == Some(acc)
  {
  }

  // ------------------------------------------------ writing a key

  function Le32(v: nat): (r: Bytes)
    ensures |r| == 4
  {
    Le16(v) + Le16(v / 0x1_0000)
  }

  function U32(b: Bytes): nat
    requires |b| == 4
  {
    U16(b[0], b[1]) + 0x1_0000 * U16(b[2], b[3])
  }

  /** The attribute of a kind outside the encapsulation, if it is written. */
  function MetaAttr(k: Key, kind: nat): Option<Bytes> {
    if kind == DP_HASH then Some(k.meta.hash)
    else if kind == RECIRC_ID then Some(k.meta.recirc)
    else if kind == PRIORITY then Some(k.meta.priority)
    else if kind == TUNNEL then (if IsZero(k.meta.tun.dst) then None else Some(PutAll(TunList(k.meta.tun))))
    else if kind == IN_PORT then (if k.meta.inPort == DP_MAX_PORTS then None else Some(Le32(k.meta.inPort)))
    else if kind == SKB_MARK then Some(k.meta.mark)
    else if kind == ETHERNET then Some(k.eth.src + k.eth.dst)
    else None
  }

  predicate IsIp(k: Key) {
    k.eth.kind == ETH_IP || k.eth.kind == ETH_IPV6
  }

  predicate IsArp(k: Key) {
    k.eth.kind == ETH_ARP || k.eth.kind == ETH_RARP
  }

  /** A transport header of this protocol is part of the key. */
  predicate Carries(k: Key, proto: nat) {
    IsIp(k) && k.ip.frag != FRAG_LATER && k.ip.proto == proto
  }

  predicate IsIcmp(k: Key) {
    k.eth.kind == ETH_IP && Carries(k, 1)
  }

  predicate IsIcmp6(k: Key) {
    k.eth.kind == ETH_IPV6 && Carries(k, 58)
  }

  /** Neighbour solicitation or advertisement. */
  predicate IsNd(k: Key) {
    IsIcmp6(k) && |k.tp.src| == 2 && k.tp.src[1] in {135, 136}
  }

  predicate Sized(k: Key) {
    && TunSized(k.meta.tun) && |k.meta.priority| == |k.meta.mark| == |k.meta.hash| == |k.meta.recirc| == 4
    && k.meta.inPort <= DP_MAX_PORTS
    && |k.eth.src| == |k.eth.dst| == 6 && |k.eth.tci| == |k.eth.kind| == 2
    && |k.tp.src| == |k.tp.dst| == |k.tp.flags| == 2 && |k.l3| == 64
  }

  /** The attribute of a kind that the encapsulation would hold. */
  function InnerAttr(k: Key, kind: nat): Option<Bytes>
    requires Sized(k)
  {
    if kind == ETHERTYPE then (if k.eth.kind == ETH_802_2 then None else Some(k.eth.kind))
    else if kind == IPV4 then
      (if k.eth.kind == ETH_IP then Some(k.l3[..8] + [k.ip.proto, k.ip.tos, k.ip.ttl, k.ip.frag]) else None)
    else if kind == IPV6 then
      (if k.eth.kind == ETH_IPV6 then Some(k.l3[..36] + [k.ip.proto, k.ip.tos, k.ip.ttl, k.ip.frag]) else None)
    else if kind == ARP then (if IsArp(k) then Some(k.l3[..8] + [0, k.ip.proto] + k.l3[8..20] + [0, 0]) else None)
    else if kind == TCP then (if Carries(k, 6) then Some(k.tp.src + k.tp.dst) else None)
    else if kind == TCP_FLAGS then (if Carries(k, 6) then Some(k.tp.flags) else None)
    else if kind == UDP then (if Carries(k, 17) then Some(k.tp.src + k.tp.dst) else None)
    else if kind == SCTP then (if Carries(k, 132) then Some(k.tp.src + k.tp.dst) else None)
    else if kind == ICMP then (if IsIcmp(k) then Some([k.tp.src[1], k.tp.dst[1]]) else None)
    else if kind == ICMPV6 then (if IsIcmp6(k) then Some([k.tp.src[1], k.tp.dst[1]]) else None)
    else if kind == ND then (if IsNd(k) then Some(k.l3[36..]) else None)
    else None
  }

  const META_ORDER: seq<nat> := [DP_HASH, RECIRC_ID, PRIORITY, TUNNEL, IN_PORT, SKB_MARK, ETHERNET]
  const INNER_ORDER: seq<nat> := [ETHERTYPE, IPV4, IPV6, ARP, TCP, TCP_FLAGS, UDP, SCTP, ICMP, ICMPV6, ND]

  function AttrOf(k: Key, outer: bool, kind: nat): Option<Bytes>
    requires Sized(k)
  {
    if outer then MetaAttr(k, kind) else InnerAttr(k, kind)
  }

  /** The attributes of these kinds, in this order, that are written. */
  function List(k: Key, outer: bool, order: seq<nat>): seq<Attr>
    requires Sized(k)
  {
    if order == [] then [] else
    var d := AttrOf(k, outer, order[0]);
    (if d.Some? then [Attr(order[0], d.value)] else []) + List(k, outer, order[1..])
  }

  predicate Tagged(k: Key) {
    !IsZero(k.eth.tci) || k.eth.kind == ETH_8021Q
  }

  function Encap(k: Key): Bytes
    requires Sized(k)
  {
    if IsZero(k.eth.tci) then [] else PutAll(List(k, false, INNER_ORDER))
  }

  /** ovs_nla_put_flow of a key, given room. */
  function PutFlow(k: Key): Bytes
    requires Sized(k)
  {
    PutAll(List(k, true, META_ORDER)
         + if Tagged(k) then [Attr(ETHERTYPE, ETH_8021Q), Attr(VLAN, k.eth.tci), Attr(ENCAP, Encap(k))]
           else List(k, false, INNER_ORDER))
  }

  // ------------------------------------------------ reading attributes

  /** ovs_key_lens; None where any length goes. */
  function KeyLen(kind: nat): Option<nat> {
    if kind in {ENCAP, TUNNEL} then None
    else Some(
      if kind in {PRIORITY, IN_PORT, SKB_MARK, DP_HASH, RECIRC_ID, TCP, UDP, SCTP} then 4
      else if kind in {VLAN, ETHERTYPE, TCP_FLAGS, ICMP, ICMPV6} then 2
      else if kind in {ETHERNET, IPV4} then 12
      else if kind == IPV6 then 40
      else if kind == ARP then 24
      else if kind == ND then 28
      else 0)
  }

  predicate LenOk(kind: nat, d: Bytes) {
    KeyLen(kind).None? || KeyLen(kind).value == |d|
  }

  type AttrMap = map<nat, Bytes>

  /** The list of attributes added to those known: none twice, none unknown,
      none of a wrong length. */
  function Collected(l: seq<Attr>, known: AttrMap): Option<AttrMap> {
    if l == [] then Some(known)
    else if l[0].kind > KEY_ATTR_MAX || l[0].kind in known || !LenOk(l[0].kind, l[0].data) then None
    else Collected(l[1..], known[l[0].kind := l[0].data])
  }

  function Parsed(b: Bytes, known: AttrMap): Option<AttrMap> {
    if Remainder(b) == 0 then Collected(Attrs(b), known) else None
  }

  /** parse_flow_nlattrs. */
  method ParseFlowNlattrs(b: Bytes, known: AttrMap) returns (r: Option<AttrMap>)
    ensures r == Parsed(b, known)
  {
    hide First, Rest, AttrOk, LenOk, Align;
    var attrs: AttrMap := known;
    var rest, rem := b, |b| as int;
    while AttrOk(rest)
      invariant Collected(Attrs(b), known) == Collected(Attrs(rest), attrs)
      invariant Remainder(b) == if AttrOk(rest) then Remainder(rest) else rem
      invariant AttrOk(rest) ==> rem == |rest|
      decreases |rest|
    {
      AttrsStep(rest);
      var a := First(rest);
      if a.kind > KEY_ATTR_MAX || a.kind in attrs || !LenOk(a.kind, a.data) {
        return None;
      }
      attrs := attrs[a.kind := a.data];
      rem := |rest| - Align(LenOf(rest));
      rest := Rest(rest);
    }
    if rem != 0 {
      return None;
    }
    r := Some(attrs);
  }

  // ------------------------------------------------ from attributes to a key

  predicate LensOk(a: AttrMap) {
    forall kind :: kind in a ==> LenOk(kind, a[kind])
  }

  function Get(a: AttrMap, kind: nat, n: nat): Bytes {
    if kind in a then a[kind] else Zeros(n)
  }

  /** metadata_from_nlattrs. */
  function MetaFrom(a: AttrMap): Option<Meta>
    requires LensOk(a)
  {
    if IN_PORT in a && U32(a[IN_PORT]) >= DP_MAX_PORTS then None else
    var tun := if TUNNEL in a then TunFrom(a[TUNNEL]) else Some(NoTunnel());
    if tun.None? then None else
    Some(Meta(tun.value, Get(a, PRIORITY, 4), Get(a, SKB_MARK, 4), if IN_PORT in a then U32(a[IN_PORT]) else DP_MAX_PORTS,
              Get(a, DP_HASH, 4), Get(a, RECIRC_ID, 4)))
  }

  function EthFrom(a: AttrMap): Option<Eth>
    requires LensOk(a)
  {
    if VLAN in a && !Present(a[VLAN]) then None
    else if ETHERTYPE in a && Be16(a[ETHERTYPE]) < ETH_P_802_3_MIN then None
    else
      var addr := Get(a, ETHERNET, 12);
      Some(Eth(addr[..6], addr[6..], Get(a, VLAN, 2), if ETHERTYPE in a then a[ETHERTYPE] else ETH_802_2))
  }

  function Over(b: Bytes, at: nat, d: Bytes): (r: Bytes)
    requires at + |d| <= |b|
    ensures |r| == |b|
  {
    b[..at] + d + b[at + |d|..]
  }

  datatype Net = Net(ip: Ip, l3: Bytes)

  function NoNet(): Net {
    Net(Ip(0, 0, 0, 0), Zeros(64))
  }

  function NetV4(a: AttrMap, n: Net): (r: Option<Net>)
    requires LensOk(a) && |n.l3| == 64
    ensures r.Some? ==> |r.value.l3| == 64
  {
    if IPV4 !in a then Some(n)
    else var d := a[IPV4]; if d[11] > FRAG_LATER then None else Some(Net(Ip(d[8], d[9], d[10], d[11]), Over(n.l3, 0, d[..8])))
  }

  function NetV6(a: AttrMap, n: Net): (r: Option<Net>)
    requires LensOk(a) && |n.l3| == 64
    ensures r.Some? ==> |r.value.l3| == 64
  {
    if IPV6 !in a then Some(n)
    else var d := a[IPV6]; if d[39] > FRAG_LATER then None else Some(Net(Ip(d[36], d[37], d[38], d[39]), Over(n.l3, 0, d[..36])))
  }

  function NetArp(a: AttrMap, n: Net): (r: Option<Net>)
    requires LensOk(a) && |n.l3| == 64
    ensures r.Some? ==> |r.value.l3| == 64
  {
    if ARP !in a then Some(n)
    else var d := a[ARP]; if d[8] != 0 then None else Some(Net(n.ip.(proto := d[9]), Over(n.l3, 0, d[..8] + d[10..22])))
  }

  /** The network part, attribute after attribute. */
  function NetFrom(a: AttrMap): (r: Option<Net>)
    requires LensOk(a)
    ensures r.Some? ==> |r.value.l3| == 64
  {
    var n4 := NetV4(a, NoNet());
    if n4.None? then None else
    var n6 := NetV6(a, n4.value);
    if n6.None? then None else
    var narp := NetArp(a, n6.value);
    if narp.None? then None else
    Some(narp.value.(l3 := if ND in a then Over(narp.value.l3, 36, a[ND]) else narp.value.l3))
  }

  /** The transport part: of several headers the last counts. */
  function TpFrom(a: AttrMap): Tp
    requires LensOk(a)
  {
    var ports :=
      if ICMPV6 in a then [0, a[ICMPV6][0], 0, a[ICMPV6][1]]
      else if ICMP in a then [0, a[ICMP][0], 0, a[ICMP][1]]
      else if SCTP in a then a[SCTP] else if UDP in a then a[UDP] else Get(a, TCP, 4);
    Tp(ports[..2], ports[2..], Get(a, TCP_FLAGS, 2))
  }

  const KNOWN: set<nat> := {PRIORITY, IN_PORT, ETHERNET, VLAN, ETHERTYPE, IPV4, IPV6, TCP, UDP, ICMP, ICMPV6, ARP, ND,
                            SKB_MARK, TUNNEL, SCTP, TCP_FLAGS, DP_HASH, RECIRC_ID}

  /** ovs_key_from_nlattrs, for a key. */
  function KeyFrom(a: AttrMap): Option<Key>
    requires LensOk(a)
  {
    var meta, eth, net := MetaFrom(a), EthFrom(a), NetFrom(a);
    if meta.None? || eth.None? || net.None? || !(a.Keys <= KNOWN) then None
    else Some(Key(meta.value, eth.value, net.value.ip, TpFrom(a), net.value.l3))
  }

  /** The attributes that match_validate expects with a key. */
  function Expected(k: Key): set<nat> {
    {ETHERNET}
    + (if IsArp(k) then {ARP} else {}) + (if k.eth.kind == ETH_IP then {IPV4} else {}) + (if k.eth.kind == ETH_IPV6 then {IPV6} else {})
    + (if Carries(k, 17) then {UDP} else {}) + (if Carries(k, 132) then {SCTP} else {}) + (if Carries(k, 6) then {TCP, TCP_FLAGS} else {})
    + (if IsIcmp(k) then {ICMP} else {}) + (if IsIcmp6(k) then {ICMPV6} else {})
    + (if IsIcmp6(k) && k.tp.src in {[0, 135], [0, 136]} then {ND} else {})
  }

  /** What ovs_nla_get_match does about an encapsulated frame. */
  function Decapsulated(a: AttrMap): Option<AttrMap>
    requires LensOk(a)
  {
    if !(ETHERNET in a && ETHERTYPE in a && a[ETHERTYPE] == ETH_8021Q) then Some(a)
    else if VLAN !in a || ENCAP !in a then None
    else if Present(a[VLAN]) then Parsed(a[ENCAP], a - {ETHERTYPE, ENCAP})
    else if IsZero(a[VLAN]) && a[ENCAP] == [] then Some(a - {ETHERTYPE, ENCAP})
    else None
  }

  lemma {:induction false} CollectedLens(l: seq<Attr>, known: AttrMap)
    requires LensOk(known)
    ensures Collected(l, known).Some? ==> LensOk(Collected(l, known).value)
    decreases |l|
  {
    hide LenOk;
    if l != [] && l[0].kind <= KEY_ATTR_MAX && l[0].kind !in known && LenOk(l[0].kind, l[0].data) {
      CollectedLens(l[1..], known[l[0].kind := l[0].data]);
    }
  }

  lemma ParsedLens(b: Bytes, known: AttrMap)
    requires LensOk(known)
    ensures Parsed(b, known).Some? ==> LensOk(Parsed(b, known).value)
  {
    hide LensOk;
    CollectedLens(Attrs(b), known);
  }

  lemma DecapsulatedLens(a: AttrMap)
    requires LensOk(a)
    ensures Decapsulated(a).Some? ==> LensOk(Decapsulated(a).value)
  {
    hide Parsed, Present, IsZero;
    if ETHERTYPE in a && VLAN in a && ENCAP in a {
      ParsedLens(a[ENCAP], a - {ETHERTYPE, ENCAP});
    }
  }

  /** The end of ovs_nla_get_match. */
  function MatchFrom(a: AttrMap): Option<Key>
    requires LensOk(a)
  {
    var k := KeyFrom(a);
    if k.None? || !(Expected(k.value) <= a.Keys) then None else k
  }

  /** What ovs_nla_get_match makes of a message without a mask. */
  function GetMatch(b: Bytes): Option<Key> {
    var a := Parsed(b, map[]);
    if a.None? then None else
    ParsedLens(b, map[]);
    var d := Decapsulated(a.value);
    if d.None? then None else
    DecapsulatedLens(a.value);
    MatchFrom(d.value)
  }

  /** ovs_nla_get_match. */
  method ReadMatch(b: Bytes) returns (r: Option<Key>)
    ensures r == GetMatch(b)
  {
    hide Parsed, MatchFrom, Present, IsZero;
    var a := ParseFlowNlattrs(b, map[]);
    if a.None? {
      return None;
    }
    ParsedLens(b, map[]);
    var attrs := a.value;
    if ETHERNET in attrs && ETHERTYPE in attrs && attrs[ETHERTYPE] == ETH_8021Q {
      if VLAN !in attrs || ENCAP !in attrs {
        return None;
      }
      var tci, encap := attrs[VLAN], attrs[ENCAP];
      attrs := attrs - {ETHERTYPE, ENCAP};
      if Present(tci) {
        a := ParseFlowNlattrs(encap, attrs);
        if a.None? {
          return None;
        }
        attrs := a.value;
      } else if !IsZero(tci) || encap != [] {
        return None;
      }
    }
    DecapsulatedLens(Parsed(b, map[]).value);
    r := MatchFrom(attrs);
  }

  // ------------------------------------------------ the round trip

  /** Keys the attributes can express: what the ethertype, protocol or
      fragment does not carry is zero. */
  predicate WellFormed(k: Key) {
    Sized(k) && TunnelOk(k.meta.tun) && EthOk(k.eth) && NetOk(k) && TpOk(k)
  }

  predicate TunnelOk(t: Tunnel) {
    t == NoTunnel() || TunWellFormed(t)
  }

  predicate EthOk(e: Eth)
    requires |e.tci| == |e.kind| == 2
  {
    && (IsZero(e.tci) || Present(e.tci))
    && (e.kind == ETH_802_2 || Be16(e.kind) >= ETH_P_802_3_MIN)
    && (e.kind == ETH_8021Q ==> !IsZero(e.tci))
  }

  predicate NetOk(k: Key)
    requires Sized(k)
  {
    if k.eth.kind == ETH_IP then k.ip.frag <= FRAG_LATER && IsZero(k.l3[8..])
    else if k.eth.kind == ETH_IPV6 then k.ip.frag <= FRAG_LATER && (IsNd(k) || IsZero(k.l3[36..]))
    else if IsArp(k) then k.ip == Ip(k.ip.proto, 0, 0, 0) && IsZero(k.l3[20..])
    else k.ip == Ip(0, 0, 0, 0) && IsZero(k.l3)
  }

  predicate TpOk(k: Key)
    requires Sized(k)
  {
    && (Carries(k, 6) || IsZero(k.tp.flags))
    && (Carries(k, 6) || Carries(k, 17) || Carries(k, 132) ||
        (if IsIcmp(k) || IsIcmp6(k) then k.tp.src[0] == 0 && k.tp.dst[0] == 0 else IsZero(k.tp.src) && IsZero(k.tp.dst)))
  }

  /** All attributes of a key once an encapsulation is opened. */
  function AllAttr(k: Key, kind: nat): Option<Bytes>
    requires Sized(k)
  {
    if kind == VLAN then (if IsZero(k.eth.tci) then None else Some(k.eth.tci))
    else if kind in META_ORDER then MetaAttr(k, kind) else InnerAttr(k, kind)
  }

  ghost predicate Holds(a: AttrMap, k: Key)
    requires Sized(k)
  {
    forall kind :: (kind in a <==> AllAttr(k, kind).Some?) && (kind in a ==> a[kind] == AllAttr(k, kind).value)
  }

  /** Attributes added to those known, one by one. */
  function With(k: Key, outer: bool, order: seq<nat>, known: AttrMap): AttrMap
    requires Sized(k)
  {
    if order == [] then known else
    var d := AttrOf(k, outer, order[0]);
    With(k, outer, order[1..], if d.Some? then known[order[0] := d.value] else known)
  }

  predicate NoDup(order: seq<nat>) {
    forall i, j :: 0 <= i < j < |order| ==> order[i] != order[j]
  }

  ghost predicate Acceptable(k: Key, outer: bool, order: seq<nat>, known: AttrMap)
    requires Sized(k)
  {
    && NoDup(order)
    && forall kind :: kind in order ==> kind <= KEY_ATTR_MAX && kind !in known && (AttrOf(k, outer, kind).Some? ==> LenOk(kind, AttrOf(k, outer, kind).value))
  }

  lemma {:induction false} CollectedList(k: Key, outer: bool, order: seq<nat>, known: AttrMap, rest: seq<Attr>)
    requires Sized(k) && Acceptable(k, outer, order, known)
    ensures Collected(List(k, outer, order) + rest, known) == Collected(rest, With(k, outer, order, known))
    decreases |order|
  {
    hide AttrOf, LenOk, Sized;
    if order == [] {
      assert List(k, outer, order) + rest == rest;
    } else {
      var d, tail := AttrOf(k, outer, order[0]), order[1..];
      assert order[0] in order;
      assert forall kind :: kind in tail ==> kind in order && kind != order[0];
      var next := if d.Some? then known[order[0] := d.value] else known;
      CollectedList(k, outer, tail, next, rest);
      var l := List(k, outer, order) + rest;
      if d.Some? {
        assert l[0] == Attr(order[0], d.value) && l[1..] == List(k, outer, tail) + rest;
      } else {
        assert l == List(k, outer, tail) + rest;
      }
    }
  }

  lemma {:induction false} WithIs(k: Key, outer: bool, order: seq<nat>, known: AttrMap, kind: nat)
    requires Sized(k) && NoDup(order) && forall x :: x in order ==> x !in known
    ensures var a := With(k, outer, order, known);
            && (kind in a <==> kind in known || (kind in order && AttrOf(k, outer, kind).Some?))
            && (kind in known ==> a[kind] == known[kind])
            && (kind in a && kind !in known ==> a[kind] == AttrOf(k, outer, kind).value)
    decreases |order|
  {
    hide AttrOf, Sized;
    if order != [] {
      var d, tail := AttrOf(k, outer, order[0]), order[1..];
      assert order[0] in order;
      assert forall x :: x in tail ==> x in order && x != order[0];
      assert order == [order[0]] + tail;
      WithIs(k, outer, tail, if d.Some? then known[order[0] := d.value] else known, kind);
    }
  }

  /** Attributes that hold a key, taken one kind at a time. */
  lemma Look(a: AttrMap, k: Key, kind: nat)
    requires Sized(k) && Holds(a, k)
    ensures (kind in a <==> AllAttr(k, kind).Some?) && (kind in a ==> a[kind] == AllAttr(k, kind).value)
  {
  }

  lemma Le32RoundTrip(v: nat)
    requires v < 0x1_0000
    ensures U32(Le32(v)) == v
  {
    hide Le16, U16;
    Le16RoundTrip(v);
    assert v / 0x1_0000 == 0;
    Le16RoundTrip(0);
  }

  lemma MetaBack(a: AttrMap, k: Key)
    requires Sized(k) && LensOk(a) && Holds(a, k)
    ensures MetaFrom(a) == Some(k.meta) <==> TunnelOk(k.meta.tun)
  {
    hide Holds, IsZero, TunFrom, TunList, PutAll, NoTunnel, LenOk, U32, Le32;
    Look(a, k, DP_HASH);
    Look(a, k, RECIRC_ID);
    Look(a, k, PRIORITY);
    Look(a, k, SKB_MARK);
    Look(a, k, IN_PORT);
    Look(a, k, TUNNEL);
    Le32RoundTrip(k.meta.inPort);
    NoTunnelDst();
    if !IsZero(k.meta.tun.dst) {
      TunRoundTrip(k.meta.tun);
    }
  }

  lemma NoTunnelDst()
    ensures IsZero(NoTunnel().dst)
  {
  }

  lemma EthBack(a: AttrMap, k: Key)
    requires Sized(k) && LensOk(a) && Holds(a, k)
    ensures EthFrom(a) == Some(k.eth) <==>
              (IsZero(k.eth.tci) || Present(k.eth.tci)) && (k.eth.kind == ETH_802_2 || Be16(k.eth.kind) >= ETH_P_802_3_MIN)
  {
    hide Holds, LenOk, IsZero, Present;
    Look(a, k, ETHERNET);
    Look(a, k, VLAN);
    Look(a, k, ETHERTYPE);
    ZeroBytes(k.eth.tci);
    assert (k.eth.src + k.eth.dst)[..6] == k.eth.src && (k.eth.src + k.eth.dst)[6..] == k.eth.dst;
  }

  /** Which transport attributes there are. */
  lemma TpKinds(a: AttrMap, k: Key)
    requires Sized(k) && Holds(a, k)
    ensures (ICMPV6 in a <==> IsIcmp6(k)) && (ICMP in a <==> IsIcmp(k)) && (SCTP in a <==> Carries(k, 132))
    ensures (UDP in a <==> Carries(k, 17)) && (TCP in a <==> Carries(k, 6)) && (TCP_FLAGS in a <==> Carries(k, 6))
    ensures Carries(k, 6) ==> a[TCP] == k.tp.src + k.tp.dst && a[TCP_FLAGS] == k.tp.flags
    ensures Carries(k, 17) ==> a[UDP] == k.tp.src + k.tp.dst
    ensures Carries(k, 132) ==> a[SCTP] == k.tp.src + k.tp.dst
    ensures IsIcmp(k) ==> a[ICMP] == [k.tp.src[1], k.tp.dst[1]]
    ensures IsIcmp6(k) ==> a[ICMPV6] == [k.tp.src[1], k.tp.dst[1]]
  {
    hide Holds;
    Look(a, k, TCP);
    Look(a, k, TCP_FLAGS);
    Look(a, k, UDP);
    Look(a, k, SCTP);
    Look(a, k, ICMP);
    Look(a, k, ICMPV6);
  }

  lemma TpBack(a: AttrMap, k: Key)
    requires Sized(k) && LensOk(a) && Holds(a, k)
    ensures TpFrom(a) == k.tp <==> TpOk(k)
  {
    hide Holds, LensOk, IsZero, Zeros;
    TpKinds(a, k);
    var src, dst := k.tp.src, k.tp.dst;
    ZeroBytes(k.tp.flags);
    ZerosZero(2);
    Halves(src, dst);
    if Carries(k, 6) || Carries(k, 17) || Carries(k, 132) {
    } else if IsIcmp(k) || IsIcmp6(k) {
      assert src == [src[0], src[1]] && dst == [dst[0], dst[1]];
      Halves([0, src[1]], [0, dst[1]]);
      assert [0, src[1], 0, dst[1]] == [0, src[1]] + [0, dst[1]];
    } else {
      ZeroBytes(src);
      ZeroBytes(dst);
      Halves(Zeros(2), Zeros(2));
      ZerosSum(2, 2);
    }
  }

  lemma ZerosZero(n: nat)
    ensures IsZero(Zeros(n)) && |Zeros(n)| == n
  {
  }

  lemma Halves(src: Bytes, dst: Bytes)
    requires |src| == 2
    ensures (src + dst)[..2] == src && (src + dst)[2..] == dst
  {
  }

  lemma ZerosSum(m: nat, n: nat)
    ensures Zeros(m) + Zeros(n) == Zeros(m + n)
  {
  }

  /** Which network attributes there are. */
  lemma NetKinds(a: AttrMap, k: Key)
    requires Sized(k) && Holds(a, k)
    ensures (IPV4 in a <==> k.eth.kind == ETH_IP) && (IPV6 in a <==> k.eth.kind == ETH_IPV6)
    ensures (ARP in a <==> IsArp(k)) && (ND in a <==> IsNd(k))
    ensures IPV4 in a ==> a[IPV4] == k.l3[..8] + [k.ip.proto, k.ip.tos, k.ip.ttl, k.ip.frag]
    ensures IPV6 in a ==> a[IPV6] == k.l3[..36] + [k.ip.proto, k.ip.tos, k.ip.ttl, k.ip.frag]
    ensures ARP in a ==> a[ARP] == k.l3[..8] + [0, k.ip.proto] + k.l3[8..20] + [0, 0]
    ensures ND in a ==> a[ND] == k.l3[36..]
  {
    hide Holds;
    Look(a, k, IPV4);
    Look(a, k, IPV6);
    Look(a, k, ARP);
    Look(a, k, ND);
  }

  lemma V4Back(a: AttrMap, l3: Bytes, ip: Ip)
    requires LensOk(a) && |l3| == 64 && IPV4 in a && a[IPV4] == l3[..8] + [ip.proto, ip.tos, ip.ttl, ip.frag]
    ensures NetV4(a, NoNet()) == if ip.frag > FRAG_LATER then None else Some(Net(ip, Over(Zeros(64), 0, l3[..8])))
  {
    hide LensOk, Over, Zeros;
    var d := a[IPV4];
    assert d[..8] == l3[..8];
  }

  lemma V6Back(a: AttrMap, l3: Bytes, ip: Ip)
    requires LensOk(a) && |l3| == 64 && IPV6 in a && a[IPV6] == l3[..36] + [ip.proto, ip.tos, ip.ttl, ip.frag]
    ensures NetV6(a, NoNet()) == if ip.frag > FRAG_LATER then None else Some(Net(ip, Over(Zeros(64), 0, l3[..36])))
  {
    hide LensOk, Over, Zeros;
    var d := a[IPV6];
    assert d[..36] == l3[..36];
  }

  lemma ArpBack(a: AttrMap, l3: Bytes, proto: Byte)
    requires LensOk(a) && |l3| == 64 && ARP in a && a[ARP] == l3[..8] + [0, proto] + l3[8..20] + [0, 0]
    ensures NetArp(a, NoNet()) == Some(Net(Ip(proto, 0, 0, 0), Over(Zeros(64), 0, l3[..20])))
  {
    hide LensOk, Over, Zeros;
    var d := a[ARP];
    assert d[..8] + d[10..22] == l3[..20];
  }

  lemma NetBack(a: AttrMap, k: Key)
    requires Sized(k) && LensOk(a) && Holds(a, k)
    ensures NetFrom(a) == Some(Net(k.ip, k.l3)) <==> NetOk(k)
  {
    hide Holds, LensOk, IsZero, Over, Zeros, IsNd;
    NetKinds(a, k);
    NdIsV6(k);
    if k.eth.kind == ETH_IP {
      V4Back(a, k.l3, k.ip);
      OverZero(k.l3, 8);
    } else if k.eth.kind == ETH_IPV6 {
      V6Back(a, k.l3, k.ip);
      OverZero(k.l3, 36);
    } else if IsArp(k) {
      ArpBack(a, k.l3, k.ip.proto);
      OverZero(k.l3, 20);
    } else {
      ZeroBytes(k.l3);
      ZerosZero(64);
    }
  }

  lemma NdIsV6(k: Key)
    ensures IsNd(k) ==> k.eth.kind == ETH_IPV6
  {
  }

  /** Writing the front of a part into zeros, when the rest of it is zero or
      written too. */
  lemma OverZero(l3: Bytes, n: nat)
    requires |l3| == 64 && n <= 64
    ensures IsZero(l3[n..]) <==> Over(Zeros(64), 0, l3[..n]) == l3
    ensures Over(Over(Zeros(64), 0, l3[..n]), n, l3[n..]) == l3
  {
    ZeroBytes(l3[n..]);
  }

  /** The attributes of a key are read as that key exactly if they can express
      it. */
  lemma KeyBack(a: AttrMap, k: Key)
    requires Sized(k) && LensOk(a) && Holds(a, k) && (k.eth.kind == ETH_8021Q ==> !IsZero(k.eth.tci))
    ensures MatchFrom(a) == Some(k) <==> WellFormed(k)
  {
    hide Holds, TunnelOk, NetOk, TpOk, LensOk, MetaFrom, EthFrom, NetFrom, TpFrom, Expected, IsZero, Present, Be16;
    MetaBack(a, k);
    EthBack(a, k);
    NetBack(a, k);
    TpBack(a, k);
    AllKnown(a, k);
    ExpectedThere(a, k);
  }

  lemma AllKnown(a: AttrMap, k: Key)
    requires Sized(k) && Holds(a, k)
    ensures a.Keys <= KNOWN
  {
    hide Sized, IsZero, Carries, IsIcmp, IsIcmp6, IsNd, IsArp;
    forall kind | kind in a ensures kind in KNOWN {
      assert AllAttr(k, kind).Some?;
    }
  }

  lemma ExpectedThere(a: AttrMap, k: Key)
    requires Sized(k) && Holds(a, k)
    ensures Expected(k) <= a.Keys
  {
    hide Holds, Sized, IsZero, AllAttr;
    TpKinds(a, k);
    NetKinds(a, k);
    EthernetThere(a, k);
  }

  lemma EthernetThere(a: AttrMap, k: Key)
    requires Sized(k) && Holds(a, k)
    ensures ETHERNET in a
  {
    hide Sized, IsZero;
    Look(a, k, ETHERNET);
  }

  // ------------------------------------------------ and through the bytes

  lemma MetaLens(k: Key, kind: nat)
    requires Sized(k)
    ensures var d := MetaAttr(k, kind);
            d.Some? ==> kind in META_ORDER && LenOk(kind, d.value) && |d.value| <= 105
  {
    hide PutAll, TunList, IsZero;
    TunReadBack(k.meta.tun);
  }

  lemma InnerLens(k: Key, kind: nat)
    requires Sized(k)
    ensures var d := InnerAttr(k, kind);
            d.Some? ==> kind in INNER_ORDER && LenOk(kind, d.value) && |d.value| <= 40
  {
    hide Carries, IsIcmp, IsIcmp6, IsNd, IsArp;
  }

  lemma Orders()
    ensures NoDup(META_ORDER) && NoDup(INNER_ORDER) && |META_ORDER| == 7 && |INNER_ORDER| == 11
    ensures forall kind :: kind in META_ORDER ==> kind <= KEY_ATTR_MAX && kind !in {ETHERTYPE, VLAN, ENCAP} && kind !in INNER_ORDER
    ensures forall kind :: kind in INNER_ORDER ==> kind <= KEY_ATTR_MAX && kind !in {VLAN, ENCAP}
  {
  }

  lemma ListAcceptable(k: Key, outer: bool, known: AttrMap)
    requires Sized(k)
    requires forall kind :: kind in (if outer then META_ORDER else INNER_ORDER) ==> kind !in known
    ensures Acceptable(k, outer, if outer then META_ORDER else INNER_ORDER, known)
  {
    hide MetaAttr, InnerAttr, LenOk, Sized, NoDup;
    Orders();
    var order := if outer then META_ORDER else INNER_ORDER;
    forall kind | kind in order
      ensures kind <= KEY_ATTR_MAX && kind !in known && (AttrOf(k, outer, kind).Some? ==> LenOk(kind, AttrOf(k, outer, kind).value))
    {
      MetaLens(k, kind);
      InnerLens(k, kind);
    }
  }

  lemma {:induction false} ListFits(k: Key, outer: bool, order: seq<nat>)
    requires Sized(k) && forall kind :: kind in order ==> kind <= KEY_ATTR_MAX
    ensures |List(k, outer, order)| <= |order|
    ensures forall a :: a in List(k, outer, order) ==> Fits(a) && |a.data| <= 105
    decreases |order|
  {
    hide MetaAttr, InnerAttr, LenOk, Sized;
    if order != [] {
      assert order[0] in order;
      MetaLens(k, order[0]);
      InnerLens(k, order[0]);
      assert forall kind :: kind in order[1..] ==> kind in order;
      ListFits(k, outer, order[1..]);
    }
  }

  /** What is known after reading both lists. */
  lemma BothHold(k: Key, known: AttrMap, a: AttrMap)
    requires Sized(k)
    requires known == With(k, true, META_ORDER, map[]) + if IsZero(k.eth.tci) then map[] else map[VLAN := k.eth.tci]
    requires a == With(k, false, INNER_ORDER, known)
    ensures Holds(a, k)
  {
    hide MetaAttr, InnerAttr, Sized, NoDup, IsZero, With;
    Orders();
    KnownKinds(k, known);
    forall kind ensures (kind in a <==> AllAttr(k, kind).Some?) && (kind in a ==> a[kind] == AllAttr(k, kind).value) {
      WithIs(k, true, META_ORDER, map[], kind);
      WithIs(k, false, INNER_ORDER, known, kind);
      MetaLens(k, kind);
      InnerLens(k, kind);
    }
  }

  lemma KnownKinds(k: Key, known: AttrMap)
    requires Sized(k) && known.Keys <= With(k, true, META_ORDER, map[]).Keys + {VLAN}
    ensures forall kind :: kind in INNER_ORDER ==> kind !in known
    ensures forall kind :: kind in known ==> kind in META_ORDER || kind == VLAN
  {
    hide Sized, With, AttrOf, NoDup;
    Orders();
    forall kind | kind in known ensures kind in META_ORDER || kind == VLAN {
      WithIs(k, true, META_ORDER, map[], kind);
    }
  }

  /** The inner list, read on top of what is known. */
  lemma InnerCollected(k: Key, known: AttrMap)
    requires Sized(k) && known.Keys <= With(k, true, META_ORDER, map[]).Keys + {VLAN}
    ensures Collected(List(k, false, INNER_ORDER), known) == Some(With(k, false, INNER_ORDER, known))
  {
    hide Sized, With, List, Acceptable;
    KnownKinds(k, known);
    ListAcceptable(k, false, known);
    CollectedList(k, false, INNER_ORDER, known, []);
    assert List(k, false, INNER_ORDER) + [] == List(k, false, INNER_ORDER);
  }

  lemma OuterCollected(k: Key, rest: seq<Attr>)
    requires Sized(k)
    ensures Collected(List(k, true, META_ORDER) + rest, map[]) == Collected(rest, With(k, true, META_ORDER, map[]))
  {
    hide Sized, With, List, Acceptable;
    ListAcceptable(k, true, map[]);
    CollectedList(k, true, META_ORDER, map[], rest);
  }

  /** A key without a tag. */
  lemma UntaggedBack(k: Key)
    requires Sized(k) && !Tagged(k)
    ensures GetMatch(PutFlow(k)) == Some(k) <==> WellFormed(k)
  {
    hide Sized, With, List, WellFormed, Collected, Attrs, Remainder, PutAll, MatchFrom, Holds, LensOk;
    var l := List(k, true, META_ORDER) + List(k, false, INNER_ORDER);
    Orders();
    ListFits(k, true, META_ORDER);
    ListFits(k, false, INNER_ORDER);
    AttrsPutAll(l);
    OuterCollected(k, List(k, false, INNER_ORDER));
    var known := With(k, true, META_ORDER, map[]);
    InnerCollected(k, known);
    var a := With(k, false, INNER_ORDER, known);
    NoneWrong();
    ParsedLens(PutAll(l), map[]);
    assert known == known + map[];
    BothHold(k, known, a);
    EthertypeOf(a, k);
    KeyBack(a, k);
  }

  lemma EthertypeOf(a: AttrMap, k: Key)
    requires Sized(k) && Holds(a, k)
    ensures ETHERTYPE in a ==> a[ETHERTYPE] == k.eth.kind
  {
    hide Sized, IsZero;
    Look(a, k, ETHERTYPE);
  }

  /** The attributes of a tagged key before its encapsulation is opened. */
  function TaggedMap(k: Key): AttrMap
    requires Sized(k)
  {
    With(k, true, META_ORDER, map[])[ETHERTYPE := ETH_8021Q][VLAN := k.eth.tci][ENCAP := Encap(k)]
  }

  lemma TaggedParsed(k: Key)
    requires Sized(k) && Tagged(k)
    ensures Parsed(PutFlow(k), map[]) == Some(TaggedMap(k))
  {
    hide Sized, With, List, Attrs, Remainder, PutAll, IsZero;
    var inner := List(k, false, INNER_ORDER);
    var tail := [Attr(ETHERTYPE, ETH_8021Q), Attr(VLAN, k.eth.tci), Attr(ENCAP, Encap(k))];
    var l := List(k, true, META_ORDER) + tail;
    Orders();
    ListFits(k, true, META_ORDER);
    ListFits(k, false, INNER_ORDER);
    PutAllBound(inner, 105);
    TailFits(k, Encap(k));
    AttrsPutAll(l);
    OuterCollected(k, tail);
    TailCollected(k, With(k, true, META_ORDER, map[]), Encap(k));
  }

  /** A key with a tag: the outer attributes, then the encapsulated ones. */
  lemma TaggedBack(k: Key)
    requires Sized(k) && !IsZero(k.eth.tci)
    ensures GetMatch(PutFlow(k)) == Some(k) <==> WellFormed(k)
  {
    hide With, List, TunnelOk, NetOk, TpOk, Attrs, Remainder, PutAll, MatchFrom, Holds, LensOk, Present, IsZero, PutFlow;
    var inner := List(k, false, INNER_ORDER);
    Orders();
    ListFits(k, false, INNER_ORDER);
    AttrsPutAll(inner);
    TaggedParsed(k);
    NoneWrong();
    ParsedLens(PutFlow(k), map[]);
    var meta, a0 := With(k, true, META_ORDER, map[]), TaggedMap(k);
    var a1: AttrMap := meta[VLAN := k.eth.tci];
    KnownKinds(k, meta);
    assert a0 - {ETHERTYPE, ENCAP} == a1;
    InnerCollected(k, a1);
    assert a1 == meta + map[VLAN := k.eth.tci];
    var a := With(k, false, INNER_ORDER, a1);
    MetaHasEthernet(k);
    BothHold(k, a1, a);
    if Present(k.eth.tci) {
      assert Decapsulated(a0) == Some(a);
      DecapsulatedLens(a0);
      KeyBack(a, k);
    } else {
      assert Decapsulated(a0) == None;
    }
  }

  /** A truncated 802.1Q frame, ethertype 802.1Q without a tag, is written in
      a form that is never accepted. */
  lemma TruncatedRejected(k: Key)
    requires Sized(k) && k.eth.kind == ETH_8021Q && IsZero(k.eth.tci)
    ensures GetMatch(PutFlow(k)) == None
  {
    hide Sized, With, List, TunnelOk, Parsed, PutAll, LensOk, PutFlow, MetaFrom, NetFrom, TpFrom;
    TaggedParsed(k);
    NoneWrong();
    ParsedLens(PutFlow(k), map[]);
    var a0 := TaggedMap(k);
    MetaHasEthernet(k);
    TagLens(k);
    DecapsulatedLens(a0);
    assert Decapsulated(a0) == Some(a0 - {ETHERTYPE, ENCAP});
  }

  lemma TagLens(k: Key)
    requires Sized(k)
    ensures |k.eth.tci| == 2
  {
  }

  lemma NoneWrong()
    ensures LensOk(map[])
  {
  }

  lemma MetaHasEthernet(k: Key)
    requires Sized(k)
    ensures ETHERNET in With(k, true, META_ORDER, map[])
  {
    hide Sized, With, NoDup, IsZero;
    Orders();
    WithIs(k, true, META_ORDER, map[], ETHERNET);
  }

  lemma TailCollected(k: Key, meta: AttrMap, encap: Bytes)
    requires Sized(k) && meta.Keys <= With(k, true, META_ORDER, map[]).Keys
    ensures Collected([Attr(ETHERTYPE, ETH_8021Q), Attr(VLAN, k.eth.tci), Attr(ENCAP, encap)], meta)
         == Some(meta[ETHERTYPE := ETH_8021Q][VLAN := k.eth.tci][ENCAP := encap])
  {
    hide With;
    KnownKinds(k, meta);
    Orders();
    WithIs(k, true, META_ORDER, map[], VLAN);
    var l := [Attr(ETHERTYPE, ETH_8021Q), Attr(VLAN, k.eth.tci), Attr(ENCAP, encap)];
    var m1: AttrMap := meta[ETHERTYPE := ETH_8021Q];
    var m2: AttrMap := m1[VLAN := k.eth.tci];
    assert ENCAP !in m2 && VLAN !in m1 && ETHERTYPE !in meta;
    assert LenOk(ETHERTYPE, ETH_8021Q) && LenOk(VLAN, k.eth.tci) && LenOk(ENCAP, encap);
    CollectedOne(l, meta);
    CollectedOne(l[1..], m1);
    CollectedOne(l[1..][1..], m2);
    assert l[1..][1..][1..] == [];
  }

  lemma CollectedOne(l: seq<Attr>, known: AttrMap)
    requires l != [] && l[0].kind <= KEY_ATTR_MAX && l[0].kind !in known && LenOk(l[0].kind, l[0].data)
    ensures Collected(l, known) == Collected(l[1..], known[l[0].kind := l[0].data])
  {
  }

  lemma TailFits(k: Key, encap: Bytes)
    requires Sized(k) && |encap| <= 2000
    ensures forall a :: a in [Attr(ETHERTYPE, ETH_8021Q), Attr(VLAN, k.eth.tci), Attr(ENCAP, encap)] ==> Fits(a)
  {
  }

  /** A key that is written is read back as it was, and accepted, exactly if
      it is well formed. */
  lemma KeyRoundTrip(k: Key)
    requires Sized(k)
    ensures GetMatch(PutFlow(k)) == Some(k) <==> WellFormed(k)
  {
    hide GetMatch, PutFlow, Sized, TunnelOk, NetOk, TpOk, IsZero, Present, Be16;
    if !Tagged(k) {
      UntaggedBack(k);
    } else if IsZero(k.eth.tci) {
      TruncatedRejected(k);
    } else {
      TaggedBack(k);
    }
  }
}
