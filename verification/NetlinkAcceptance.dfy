/** Which messages and action lists are accepted, said in terms of their
    attributes and of what the encoder writes for a key. */
module NetlinkAcceptance {
  import opened Netlink
  import opened FlowKeyNetlink
  import opened ActionNetlink
  import opened Options

  // ------------------------------------------------ the attributes of a message

  /** Each attribute known, of its length and there once; the map has them all
      and nothing else. */
  ghost predicate Listed(l: seq<Attr>, known: AttrMap, a: AttrMap) {
    && (forall i :: 0 <= i < |l| ==> l[i].kind <= KEY_ATTR_MAX && LenOk(l[i].kind, l[i].data) && l[i].kind !in known)
    && (forall i, j :: 0 <= i < j < |l| ==> l[i].kind != l[j].kind)
    && (forall i :: 0 <= i < |l| ==> l[i].kind in a && a[l[i].kind] == l[i].data)
    && (forall kind :: kind in known ==> kind in a && a[kind] == known[kind])
    && (forall kind :: kind in a ==> kind in known || exists i :: 0 <= i < |l| && l[i].kind == kind)
  }

  lemma {:induction false} CollectedExact(l: seq<Attr>, known: AttrMap, a: AttrMap)
    ensures Collected(l, known) == Some(a) <==> Listed(l, known, a)
    decreases |l|
  {
    hide LenOk;
    if l == [] {
      if Listed(l, known, a) {
        assert a == known;
      }
    } else if l[0].kind <= KEY_ATTR_MAX && l[0].kind !in known && LenOk(l[0].kind, l[0].data) {
      CollectedExact(l[1..], known[l[0].kind := l[0].data], a);
      ListedStep(l, known, a);
    }
  }

  lemma ListedStep(l: seq<Attr>, known: AttrMap, a: AttrMap)
    requires l != [] && l[0].kind <= KEY_ATTR_MAX && l[0].kind !in known && LenOk(l[0].kind, l[0].data)
    ensures Listed(l, known, a) <==> Listed(l[1..], known[l[0].kind := l[0].data], a)
  {
    hide Listed, LenOk;
    if Listed(l, known, a) {
      ListedTail(l, known, a);
    }
    if Listed(l[1..], known[l[0].kind := l[0].data], a) {
      ListedCons(l, known, a);
    }
  }

  lemma ListedTail(l: seq<Attr>, known: AttrMap, a: AttrMap)
    requires l != [] && Listed(l, known, a)
    ensures Listed(l[1..], known[l[0].kind := l[0].data], a)
  {
    hide LenOk;
    var more: AttrMap := known[l[0].kind := l[0].data];
    var t := l[1..];
    assert forall i :: 0 <= i < |t| ==> t[i] == l[i + 1];
    forall kind | kind in a ensures kind in more || exists i :: 0 <= i < |t| && t[i].kind == kind {
      if kind !in more {
        var i :| 0 <= i < |l| && l[i].kind == kind;
        assert t[i - 1].kind == kind;
      }
    }
  }

  lemma ListedDistinct(l: seq<Attr>, t: seq<Attr>)
    requires l != [] && t == l[1..] && (forall i :: 1 <= i < |l| ==> l[i].kind != l[0].kind)
    requires forall i, j :: 0 <= i < j < |t| ==> t[i].kind != t[j].kind
    ensures forall i, j :: 0 <= i < j < |l| ==> l[i].kind != l[j].kind
  {
    forall i, j | 0 <= i < j < |l| ensures l[i].kind != l[j].kind {
      if i > 0 {
        assert l[i] == t[i - 1] && l[j] == t[j - 1];
      }
    }
  }

  lemma ListedCons(l: seq<Attr>, known: AttrMap, a: AttrMap)
    requires l != [] && l[0].kind <= KEY_ATTR_MAX && l[0].kind !in known && LenOk(l[0].kind, l[0].data)
    requires Listed(l[1..], known[l[0].kind := l[0].data], a)
    ensures Listed(l, known, a)
  {
    hide LenOk;
    var more: AttrMap := known[l[0].kind := l[0].data];
    var t := l[1..];
    forall i | 1 <= i < |l|
      ensures l[i].kind <= KEY_ATTR_MAX && LenOk(l[i].kind, l[i].data) && l[i].kind !in known && l[i].kind != l[0].kind && l[i].kind in a && a[l[i].kind] == l[i].data
    {
      assert l[i] == t[i - 1];
    }
    ListedDistinct(l, t);
    assert l[0].kind in more && more[l[0].kind] == l[0].data;
    forall kind | kind in known ensures kind in a && a[kind] == known[kind] {
      assert kind in more && more[kind] == known[kind];
    }
    forall kind | kind in a ensures kind in known || exists i :: 0 <= i < |l| && l[i].kind == kind {
      if kind !in known && kind != l[0].kind {
        var i :| 0 <= i < |t| && t[i].kind == kind;
        assert l[i + 1].kind == kind;
      }
    }
  }

  /** A message is parsed exactly if it is all attributes, each known, of its
      length and there once. */
  lemma ParsedExact(b: Bytes, known: AttrMap, a: AttrMap)
    ensures Parsed(b, known) == Some(a) <==> Remainder(b) == 0 && Listed(Attrs(b), known, a)
  {
    hide Attrs, Remainder, Listed, Collected;
    CollectedExact(Attrs(b), known, a);
  }

  // ------------------------------------------------ tunnels

  /** The last attribute of a kind, or else the default. */
  function LastOr(l: seq<Attr>, kind: nat, d: Bytes): Bytes {
    if l == [] then d else
    var a := l[|l| - 1];
    if a.kind == kind then a.data else LastOr(l[..|l| - 1], kind, d)
  }

  predicate Has(l: seq<Attr>, kind: nat) {
    exists i :: 0 <= i < |l| && l[i].kind == kind
  }

  predicate TunAttrOk(a: Attr) {
    a.kind <= 6 && |a.data| == if a.kind == 0 then 8 else if a.kind <= 2 then 4 else if a.kind <= 4 then 1 else 0
  }

  /** The tunnel that attributes say, the last of a kind counting. */
  function TunSaid(l: seq<Attr>): Tunnel
    requires forall i :: 0 <= i < |l| ==> TunAttrOk(l[i])
  {
    var tos, ttl := LastOr(l, TUN_TOS, [0]), LastOr(l, TUN_TTL, [0]);
    Tunnel(LastOr(l, TUN_ID, Zeros(8)), LastOr(l, TUN_SRC, Zeros(4)), LastOr(l, TUN_DST, Zeros(4)),
           if |tos| == 1 then tos[0] else 0, if |ttl| == 1 then ttl[0] else 0, Has(l, TUN_ID), Has(l, TUN_DF), Has(l, TUN_CSUM), 0)
  }

  lemma {:induction false} TunFoldExact(l: seq<Attr>)
    ensures TunFold(l, TunAcc(NoTunnel(), false)).Some? <==> forall i :: 0 <= i < |l| ==> TunAttrOk(l[i])
    ensures (forall i :: 0 <= i < |l| ==> TunAttrOk(l[i])) ==>
              TunFold(l, TunAcc(NoTunnel(), false)) == Some(TunAcc(TunSaid(l), Has(l, TUN_TTL)))
    decreases |l|
  {
    hide Zeros;
    if l != [] {
      var n := |l| - 1;
      var front, a := l[..n], l[n];
      TunFoldExact(front);
      TunFoldAppend(front, [a], TunAcc(NoTunnel(), false));
      assert l == front + [a];
      if TunFold(front, TunAcc(NoTunnel(), false)).Some? {
        TunFoldOne(TunFold(front, TunAcc(NoTunnel(), false)).value, a);
        if TunAttrOk(a) {
          HasLast(front, a);
          SaidLast(front, a);
        }
      }
    }
  }

  lemma TunFoldOne(acc: TunAcc, a: Attr)
    ensures TunFold([a], acc) == TunStep(acc, a) && (TunStep(acc, a).Some? <==> TunAttrOk(a))
  {
    assert [a][1..] == [];
  }

  lemma HasLast(l: seq<Attr>, a: Attr)
    ensures forall kind :: Has(l + [a], kind) <==> Has(l, kind) || a.kind == kind
  {
    var m := l + [a];
    forall kind | Has(l, kind) || a.kind == kind ensures Has(m, kind) {
      if a.kind == kind {
        assert m[|l|].kind == kind;
      } else {
        var i :| 0 <= i < |l| && l[i].kind == kind;
        assert m[i].kind == kind;
      }
    }
  }

  lemma SaidLast(l: seq<Attr>, a: Attr)
    requires TunAttrOk(a) && forall i :: 0 <= i < |l| ==> TunAttrOk(l[i])
    ensures forall i :: 0 <= i < |l + [a]| ==> TunAttrOk((l + [a])[i])
    ensures TunStep(TunAcc(TunSaid(l), Has(l, TUN_TTL)), a) == Some(TunAcc(TunSaid(l + [a]), Has(l + [a], TUN_TTL)))
  {
    hide Zeros, Has;
    HasLast(l, a);
    assert (l + [a])[..|l|] == l;
  }

  /** A tunnel is accepted exactly if all its attributes are known and of their
      lengths, with a time to live and a destination that is not zero, and is
      then what they say. */
  lemma TunFromExact(b: Bytes)
    ensures var l := Attrs(b);
            if Remainder(b) <= 0 && (forall i :: 0 <= i < |l| ==> TunAttrOk(l[i])) && Has(l, TUN_TTL) && !IsZero(LastOr(l, TUN_DST, Zeros(4)))
            then TunFrom(b) == Some(TunSaid(l)) else TunFrom(b) == None
  {
    hide Attrs, Remainder, IsZero, TunFold, Zeros;
    TunFoldExact(Attrs(b));
  }

  // ------------------------------------------------ the values in them

  function TypeOf(a: AttrMap): Bytes {
    if ETHERTYPE in a then a[ETHERTYPE] else ETH_802_2
  }

  function ProtocolOf(a: AttrMap): nat
    requires LensOk(a)
  {
    if ARP in a then a[ARP][9] else if IPV6 in a then a[IPV6][36] else if IPV4 in a then a[IPV4][8] else 0
  }

  function FragmentOf(a: AttrMap): nat
    requires LensOk(a)
  {
    if IPV6 in a then a[IPV6][39] else if IPV4 in a then a[IPV4][11] else 0
  }

  predicate Transports(a: AttrMap, protocol: nat)
    requires LensOk(a)
  {
    TypeOf(a) in {ETH_IP, ETH_IPV6} && FragmentOf(a) != 2 && ProtocolOf(a) == protocol
  }

  /** The other attributes call for this one. */
  predicate Demanded(a: AttrMap, kind: nat)
    requires LensOk(a)
  {
    || kind == ETHERNET
    || (kind == ARP && TypeOf(a) in {ETH_ARP, ETH_RARP})
    || (kind == IPV4 && TypeOf(a) == ETH_IP) || (kind == IPV6 && TypeOf(a) == ETH_IPV6)
    || (kind in {TCP, TCP_FLAGS} && Transports(a, 6)) || (kind == UDP && Transports(a, 17)) || (kind == SCTP && Transports(a, 132))
    || (kind == ICMP && TypeOf(a) == ETH_IP && Transports(a, 1))
    || (kind == ICMPV6 && TypeOf(a) == ETH_IPV6 && Transports(a, 58))
    || (kind == ND && TypeOf(a) == ETH_IPV6 && Transports(a, 58) && ICMPV6 in a && a[ICMPV6][0] in {135, 136})
  }

  /** Each attribute has a value it may have. */
  predicate Legal(a: AttrMap)
    requires LensOk(a)
  {
    && (forall kind :: kind in a ==> 2 <= kind <= 20)
    && (IN_PORT in a ==> U32(a[IN_PORT]) < 0xffff)
    && (TUNNEL in a ==> TunFrom(a[TUNNEL]).Some?)
    && (VLAN in a ==> Present(a[VLAN])) && (ETHERTYPE in a ==> Be16(a[ETHERTYPE]) >= 0x600)
    && (IPV4 in a ==> a[IPV4][11] <= 2) && (IPV6 in a ==> a[IPV6][39] <= 2) && (ARP in a ==> a[ARP][8] == 0)
  }

  /** The attributes make a key exactly if each is legal and none is missing. */
  lemma MatchAccepts(a: AttrMap)
    requires LensOk(a)
    ensures MatchFrom(a).Some? <==> Legal(a) && forall kind :: Demanded(a, kind) ==> kind in a
  {
    hide LensOk, TunFrom, Zeros, Over, U32, Present, Be16, Expected, Demanded;
    if Legal(a) {
      KeyFields(a);
      var k := KeyFrom(a).value;
      ExpectedDemanded(a, k);
    }
  }

  lemma KeyFields(a: AttrMap)
    requires LensOk(a)
    ensures KeyFrom(a).Some? <==> Legal(a)
    ensures KeyFrom(a).Some? ==>
              var k := KeyFrom(a).value;
              k.eth.kind == TypeOf(a) && k.ip.proto == ProtocolOf(a) && k.ip.frag == FragmentOf(a) && k.tp == TpFrom(a)
  {
    hide LensOk, TunFrom, Zeros, Over, U32, Present, Be16, TpFrom;
  }

  lemma ExpectedDemanded(a: AttrMap, k: Key)
    requires LensOk(a) && k.eth.kind == TypeOf(a) && k.ip.proto == ProtocolOf(a) && k.ip.frag == FragmentOf(a) && k.tp == TpFrom(a)
    ensures Expected(k) <= a.Keys <==> forall kind :: Demanded(a, kind) ==> kind in a
  {
    hide TypeOf, ProtocolOf, FragmentOf;
    if ICMPV6 in a {
      IcmpType(a);
    }
    if Expected(k) <= a.Keys {
      forall kind | Demanded(a, kind) ensures kind in a {
        assert kind in Expected(k);
      }
    }
    if forall kind :: Demanded(a, kind) ==> kind in a {
      forall kind | kind in Expected(k) ensures kind in a {
        if kind == ND {
          assert Demanded(a, ICMPV6);
        }
        assert Demanded(a, kind);
      }
    }
  }

  lemma IcmpType(a: AttrMap)
    requires LensOk(a) && ICMPV6 in a
    ensures TpFrom(a).src == [0, a[ICMPV6][0]]
  {
    assert LenOk(ICMPV6, a[ICMPV6]);
    var t := [0, a[ICMPV6][0], 0, a[ICMPV6][1]];
    assert t[..2] == [0, a[ICMPV6][0]];
  }

  /** A key that is accepted came with every attribute that the encoder would
      write for it. */
  lemma MatchNeeds(a: AttrMap, kind: nat)
    requires LensOk(a) && MatchFrom(a).Some?
    ensures Sized(MatchFrom(a).value)
    ensures kind in INNER_ORDER && InnerAttr(MatchFrom(a).value, kind).Some? ==> kind in a
  {
    hide TunFrom, Zeros, U32, Present, Be16, Over;
    var k := MatchFrom(a).value;
    KeySized(a);
    KeyFields(a);
    if kind == ND && IsNd(k) {
      assert ICMPV6 in Expected(k);
      IcmpType(a);
    }
  }

  lemma KeySized(a: AttrMap)
    requires LensOk(a) && KeyFrom(a).Some?
    ensures Sized(KeyFrom(a).value)
  {
    hide Over, Present, Be16, TunFrom, NetV4, NetV6, NetArp;
    ZerosZero(2);
    ZerosZero(4);
    ZerosZero(12);
    TunnelSized(a);
  }

  lemma TunnelSized(a: AttrMap)
    requires LensOk(a) && MetaFrom(a).Some?
    ensures TunSized(MetaFrom(a).value.tun) && MetaFrom(a).value.inPort <= DP_MAX_PORTS
  {
    hide TunFrom, U32;
    ZerosZero(8);
    ZerosZero(4);
    if TUNNEL in a {
      TunFromSized(a[TUNNEL]);
    }
  }

  /** So for a whole message: the attributes it holds once an encapsulation is
      opened, why it is accepted, and what it cannot lack. */
  lemma GetMatchAccepts(b: Bytes)
    ensures GetMatch(b).Some? ==>
              exists a :: LensOk(a) && Opened(b, a) && Legal(a) && GetMatch(b) == MatchFrom(a) && (forall kind :: Demanded(a, kind) ==> kind in a)
    ensures (exists a :: LensOk(a) && Opened(b, a) && Legal(a) && forall kind :: Demanded(a, kind) ==> kind in a) ==> GetMatch(b).Some?
  {
    hide Legal, Demanded, MatchFrom, LensOk, Parsed;
    NoneWrong();
    if Parsed(b, map[]).Some? {
      ParsedLens(b, map[]);
      DecapsulatedLens(Parsed(b, map[]).value);
      var d := Decapsulated(Parsed(b, map[]).value);
      if d.Some? {
        MatchAccepts(d.value);
        assert GetMatch(b).Some? ==> Opened(b, d.value);
      }
    }
  }

  /** An accepted message had every attribute that the encoder would write for
      the key it gave. */
  lemma GetMatchNeeds(b: Bytes)
    requires GetMatch(b).Some?
    ensures Sized(GetMatch(b).value)
    ensures exists a :: Opened(b, a) && CarriesAll(GetMatch(b).value, a)
  {
    hide GetMatch, Legal, Demanded, MatchFrom, LensOk, Opened, InnerAttr, Sized;
    GetMatchAccepts(b);
    var a :| LensOk(a) && Opened(b, a) && GetMatch(b) == MatchFrom(a);
    MatchNeeds(a, ETHERTYPE);
    forall kind | kind in INNER_ORDER && InnerAttr(GetMatch(b).value, kind).Some? ensures kind in a {
      MatchNeeds(a, kind);
    }
    assert CarriesAll(GetMatch(b).value, a);
  }

  ghost predicate CarriesAll(k: Key, a: AttrMap)
    requires Sized(k)
  {
    forall kind :: kind in INNER_ORDER && InnerAttr(k, kind).Some? ==> kind in a
  }

  ghost predicate Opened(b: Bytes, a: AttrMap) {
    var p := Parsed(b, map[]);
    p.Some? && LensOk(p.value) && Decapsulated(p.value) == Some(a)
  }

  // ------------------------------------------------ set actions

  /** Of a transport header exactly that may be set which the key has, and
      only if its ports are known. */
  lemma SetTransport(k: Key, a: Attr)
    requires WellFormed(k) && a.kind in {TCP, UDP, SCTP}
    ensures SetOk(k, a) <==> InnerAttr(k, a.kind).Some? && |a.data| == 4 && !IsZero(InnerAttr(k, a.kind).value)
  {
    hide TunnelOk, EthOk, NetOk;
    var src, dst := k.tp.src, k.tp.dst;
    ZeroPair(src, dst);
  }

  lemma ZeroPair(x: Bytes, y: Bytes)
    ensures IsZero(x + y) <==> IsZero(x) && IsZero(y)
  {
    if IsZero(x + y) {
      assert forall i :: 0 <= i < |x| ==> (x + y)[i] == x[i];
      assert forall i :: 0 <= i < |y| ==> (x + y)[|x| + i] == y[i];
    }
  }

  /** A network header exactly if the key has it with a protocol, and without
      changing that or the fragment type; a flow label has twenty bits. */
  lemma SetNetwork(k: Key, a: Attr)
    requires Sized(k) && a.kind in {IPV4, IPV6}
    ensures var v, n := InnerAttr(k, a.kind), if a.kind == IPV4 then 8 else 36;
            SetOk(k, a) <==>
              && v.Some? && |a.data| == |v.value| == n + 4 && v.value[n] != 0
              && a.data[n] == v.value[n] && a.data[n + 3] == v.value[n + 3]
              && (a.kind == IPV6 ==> a.data[32] == 0 && a.data[33] < 16)
  {
  }

  /** Priority, mark and Ethernet addresses always; nothing else ever. */
  lemma SetOthers(k: Key, a: Attr)
    requires Sized(k)
    ensures a.kind in {PRIORITY, SKB_MARK, ETHERNET} ==> (SetOk(k, a) <==> |a.data| == |MetaAttr(k, a.kind).value|)
    ensures SetOk(k, a) ==> a.kind in {PRIORITY, SKB_MARK, ETHERNET, IPV4, IPV6, TCP, UDP, SCTP}
  {
  }

  // ------------------------------------------------ the other actions

  /** A port that an output may name is one that a key may come from. */
  lemma OutputAccepted(ctx: Ctx, d: Bytes)
    ensures PlainOk(ctx, Attr(OUTPUT, d)) <==> |d| == 4 && MetaFrom(map[IN_PORT := d]).Some?
  {
  }

  /** A tag that may be pushed is one that a key may have. */
  lemma PushAccepted(ctx: Ctx, d: Bytes)
    ensures PlainOk(ctx, Attr(PUSH_VLAN, d)) <==> |d| == 4 && d[..2] == ETH_8021Q && EthFrom(map[VLAN := d[2..]]).Some?
  {
  }

  lemma PlainOthers(ctx: Ctx, a: Attr)
    ensures a.kind == USERSPACE ==> (PlainOk(ctx, a) <==> ctx.userspaceOk(a.data))
    ensures a.kind == POP_VLAN ==> (PlainOk(ctx, a) <==> |a.data| == 0)
    ensures a.kind == RECIRC ==> (PlainOk(ctx, a) <==> |a.data| == 4)
    ensures a.kind == HASH ==> (PlainOk(ctx, a) <==> |a.data| == 8 && a.data[..4] == [0, 0, 0, 0])
    ensures PlainOk(ctx, a) ==> a.kind in {OUTPUT, USERSPACE, SET, PUSH_VLAN, POP_VLAN, RECIRC, HASH}
  {
    if a.kind == HASH && |a.data| == 8 {
      var d := a.data;
      assert d[..4] == [d[0], d[1], d[2], d[3]];
    }
  }

  // ------------------------------------------------ lists

  /** A list is accepted exactly if each of its actions is. */
  lemma {:induction false} ListAccepted(ctx: Ctx, l: seq<Attr>, depth: nat)
    ensures CopyList(ctx, l, depth).Some? <==> forall i :: 0 <= i < |l| ==> CopyOne(ctx, l[i], depth).Some?
    decreases |l|
  {
    hide CopyOne;
    if l != [] {
      ListAccepted(ctx, l[1..], depth);
      assert forall i :: 0 <= i < |l[1..]| ==> l[1..][i] == l[i + 1];
      if CopyList(ctx, l[1..], depth).Some? && CopyOne(ctx, l[0], depth).Some? {
        forall i | 0 <= i < |l| ensures CopyOne(ctx, l[i], depth).Some? {
          assert i > 0 ==> l[i] == l[1..][i - 1];
        }
      }
    }
  }

  /** Samples nest two deep and no deeper. */
  lemma SampleDepth(ctx: Ctx, a: Attr, depth: nat, p: Bytes)
    requires a.kind == SAMPLE && Parts(a.data) == Some(SampleParts(p, []))
    ensures CopyOne(ctx, a, depth).Some? <==> depth < 2
  {
    NoAttrs([]);
  }

  // ------------------------------------------------ samples

  /** A sample is one probability of four bytes and one list of actions, in
      either order, and nothing else. */
  lemma PartsExact(d: Bytes, p: Bytes, acts: Bytes)
    ensures Parts(d) == Some(SampleParts(p, acts)) <==>
              && Remainder(d) == 0 && |p| == 4 && (acts == [] || |acts| >= 4)
              && Attrs(d) in {[Attr(PROBABILITY, p), Attr(ACTIONS, acts)], [Attr(ACTIONS, acts), Attr(PROBABILITY, p)]}
  {
    hide Attrs, Remainder;
    var l := Attrs(d);
    PartOfTwo(Attr(PROBABILITY, p), Attr(ACTIONS, acts));
    PartOfTwo(Attr(ACTIONS, acts), Attr(PROBABILITY, p));
    if Parts(d).Some? {
      TwoParts(l);
    }
  }

  lemma PartOfTwo(x: Attr, y: Attr)
    requires x.kind != y.kind
    ensures PartOf([x, y], x.kind) == Some(x.data) && PartOf([x, y], y.kind) == Some(y.data)
  {
    assert [x, y][1..] == [y];
  }

  lemma TwoParts(l: seq<Attr>)
    requires PartsOk(l) && PartOf(l, PROBABILITY).Some? && PartOf(l, ACTIONS).Some?
    ensures |l| == 2 && l[0].kind != l[1].kind && l == [l[0], l[1]]
    ensures PartOf(l, l[0].kind) == Some(l[0].data) && PartOf(l, l[1].kind) == Some(l[1].data)
  {
    NotMore(l);
    NotFewer(l);
    PartOfTwo(l[0], l[1]);
    assert l == [l[0], l[1]];
  }

  lemma NotMore(l: seq<Attr>)
    ensures |l| > 2 ==> !PartsOk(l)
  {
    if |l| > 2 {
      var x, y, z := l[0].kind, l[1].kind, l[2].kind;
      assert x in {PROBABILITY, ACTIONS} && y in {PROBABILITY, ACTIONS} && z in {PROBABILITY, ACTIONS} ==> x == y || x == z || y == z;
    }
  }

  lemma NotFewer(l: seq<Attr>)
    ensures |l| < 2 ==> PartOf(l, PROBABILITY).None? || PartOf(l, ACTIONS).None?
  {
    if |l| == 1 {
      assert l[1..] == [];
    }
  }
}
