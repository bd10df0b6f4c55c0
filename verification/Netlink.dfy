/** Netlink attributes: a header of length and type, the payload, and padding
    to four bytes.  Numbers are in the byte order of a little-endian host. */
module Netlink {
  type Byte = n: nat | n < 256
  type Bytes = seq<Byte>

  const NLA_HDRLEN: nat := 4

  datatype Attr = Attr(kind: nat, data: Bytes)

  function Align(n: nat): (r: nat)
    ensures n <= r < n + 4
  {
    (n + 3) / 4 * 4
  }

  lemma AlignHeader(n: nat)
    ensures Align(NLA_HDRLEN + n) == NLA_HDRLEN + Align(n)
  {
  }

  function Le16(v: nat): (r: Bytes)
    ensures |r| == 2
  {
    [v % 256, v / 256 % 256]
  }

  function U16(lo: Byte, hi: Byte): nat {
    lo + 256 * hi
  }

  lemma Le16RoundTrip(v: nat)
    requires v < 0x1_0000
    ensures U16(Le16(v)[0], Le16(v)[1]) == v
  {
  }

  function Zeros(n: nat): (r: Bytes)
    ensures |r| == n
  {
    seq(n, i => 0)
  }

  /** A header can describe it; the two top bits of a type are flags. */
  predicate Fits(a: Attr) {
    a.kind < 0x4000 && NLA_HDRLEN + |a.data| < 0x1_0000
  }

  function Put(a: Attr): (r: Bytes)
    ensures |r| == NLA_HDRLEN + Align(|a.data|)
  {
    Le16(NLA_HDRLEN + |a.data|) + Le16(a.kind) + a.data + Zeros(Align(|a.data|) - |a.data|)
  }

  function PutAll(l: seq<Attr>): Bytes {
    if l == [] then [] else Put(l[0]) + PutAll(l[1..])
  }

  // ------------------------------------------------ reading

  function LenOf(b: Bytes): nat
    requires |b| >= NLA_HDRLEN
  {
    U16(b[0], b[1])
  }

  /** nla_ok. */
  predicate AttrOk(b: Bytes) {
    |b| >= NLA_HDRLEN && NLA_HDRLEN <= LenOf(b) <= |b|
  }

  function First(b: Bytes): Attr
    requires AttrOk(b)
  {
    Attr(U16(b[2], b[3]) % 0x4000, b[NLA_HDRLEN..LenOf(b)])
  }

  /** nla_next: the padding of the last attribute may be missing. */
  function Rest(b: Bytes): (r: Bytes)
    requires AttrOk(b)
    ensures |r| < |b|
  {
    if Align(LenOf(b)) <= |b| then b[Align(LenOf(b))..] else []
  }

  /** The attributes a loop over 'b' visits. */
  function Attrs(b: Bytes): seq<Attr>
    decreases |b|
  {
    if AttrOk(b) then [First(b)] + Attrs(Rest(b)) else []
  }

  /** What the loop leaves in 'rem'. */
  function Remainder(b: Bytes): int
    decreases |b|
  {
    if !AttrOk(b) then |b|
    else if Align(LenOf(b)) <= |b| then Remainder(Rest(b))
    else |b| - Align(LenOf(b))
  }

  lemma FirstPut(a: Attr, tail: Bytes)
    requires Fits(a)
    ensures AttrOk(Put(a) + tail) && First(Put(a) + tail) == a && Rest(Put(a) + tail) == tail
    ensures Align(LenOf(Put(a) + tail)) <= |Put(a) + tail|
  {
    hide Align, Le16, U16;
    var b := Put(a) + tail;
    var n := NLA_HDRLEN + |a.data|;
    assert b[0] == Le16(n)[0] && b[1] == Le16(n)[1] && b[2] == Le16(a.kind)[0] && b[3] == Le16(a.kind)[1];
    Le16RoundTrip(n);
    Le16RoundTrip(a.kind);
    assert b[NLA_HDRLEN..n] == a.data;
    AlignHeader(|a.data|);
    assert b[|Put(a)|..] == tail;
  }

  /** What was put is what is read. */
  lemma {:induction false} AttrsPutAll(l: seq<Attr>)
    requires forall a :: a in l ==> Fits(a)
    ensures Attrs(PutAll(l)) == l && Remainder(PutAll(l)) == 0
  {
    hide Put, Align, AttrOk, First, Rest;
    if l == [] {
      NothingLeft();
    } else {
      AttrsPutAll(l[1..]);
      FirstPut(l[0], PutAll(l[1..]));
    }
  }

  lemma NothingLeft()
    ensures !AttrOk([])
  {
  }

  lemma {:induction false} PutAllBound(l: seq<Attr>, n: nat)
    requires forall a :: a in l ==> |a.data| <= n
    ensures |PutAll(l)| <= |l| * (n + 7)
  {
    hide Align, Put;
    if l != [] {
      assert l[0] in l;
      PutAllBound(l[1..], n);
      OneMore(|l| - 1, n + 7);
    }
  }

  lemma OneMore(k: nat, m: nat)
    ensures (k + 1) * m == k * m + m
  {
  }

  lemma Associate(a: Bytes, b: Bytes, c: Bytes)
    ensures a + (b + c) == (a + b) + c
  {
  }

  lemma PutAllCons(a: Attr, l: seq<Attr>)
    ensures PutAll([a] + l) == Put(a) + PutAll(l)
  {
    hide Put;
    assert ([a] + l)[1..] == l;
  }

  lemma NothingPut()
    ensures PutAll([]) == []
  {
  }

  lemma {:induction false} PutAllAppend(l: seq<Attr>, m: seq<Attr>)
    ensures PutAll(l + m) == PutAll(l) + PutAll(m)
  {
    hide Put, Align, PutAll;
    if l == [] {
      assert l + m == m;
      NothingPut();
    } else {
      var rest := l[1..];
      PutAllAppend(rest, m);
      PutAllCons(l[0], rest);
      PutAllCons(l[0], rest + m);
      assert [l[0]] + rest == l && [l[0]] + (rest + m) == l + m;
      Associate(Put(l[0]), PutAll(rest), PutAll(m));
    }
  }
}
