/** The Internet checksum, RFC 1071, and its incremental update, RFC 1624.
    Words are read as the host reads them. */
module Checksum {
  import opened Arithmetic

  type Byte = n: nat | n < 256
  type U16 = n: nat | n < 0x1_0000
  type U32 = n: nat | n < 0x1_0000_0000

  const WRAP: nat := 0x1_0000_0000

  datatype Host = Little | Big

  /** Two bytes as the host reads a 16-bit word. */
  function WordOf(h: Host, b0: Byte, b1: Byte): U16 {
    if h == Little then b0 + 256 * b1 else 256 * b0 + b1
  }

  /** Four bytes as the host reads a 32-bit word. */
  function DoubleOf(h: Host, d: seq<Byte>): U32
    requires |d| == 4
  {
    var w0, w1 := WordOf(h, d[0], d[1]), WordOf(h, d[2], d[3]);
    if h == Little then w0 + 0x1_0000 * w1 else 0x1_0000 * w0 + w1
  }

  predicate Even(n: nat) {
    n % 2 == 0
  }

  lemma EvenFour(n: nat)
    ensures Even(4 * n)
  {
  }

  /** The exact sum of the 16-bit words; an odd last byte counts as itself. */
  function Sum(h: Host, d: seq<Byte>): nat {
    if |d| == 0 then 0
    else if |d| == 1 then d[0]
    else WordOf(h, d[0], d[1]) + Sum(h, d[2..])
  }

  /** Reduction of a sum to 16 bits in ones-complement arithmetic: congruent
      modulo 65535, and zero only for zero. */
  function Norm(x: nat): (r: U16)
    ensures r == 0 <==> x == 0
  {
    if x == 0 then 0 else 1 + (x - 1) % 0xffff
  }

  /** The checksum of all bytes, from scratch. */
  function Csum(h: Host, d: seq<Byte>): U16 {
    0xffff - Norm(Sum(h, d) % WRAP)
  }

  // ------------------------------------------------ the running sum

  /** csum_continue. */
  method Continue(h: Host, partial: U32, data: seq<Byte>) returns (r: U32)
    ensures r == (partial + Sum(h, data)) % WRAP
  {
    var i := 0;
    r := partial;
    while |data| - i > 1
      invariant i <= |data| && (r + Sum(h, data[i..])) % WRAP == (partial + Sum(h, data)) % WRAP
    {
      var w, rest := WordOf(h, data[i], data[i + 1]), Sum(h, data[i + 2..]);
      assert data[i..][2..] == data[i + 2..];
      ModAdd(r + w, rest, WRAP);
      r := (r + w) % WRAP;
      i := i + 2;
    }
    if i < |data| {
      r := (r + data[i]) % WRAP;
    }
  }

  /** csum_finish: the loop ends, with the complement of the reduced sum. */
  method Finish(partial: U32) returns (r: U16)
    ensures r == 0xffff - Norm(partial)
  {
    var p := partial;
    while p / 0x1_0000 != 0
      invariant Norm(p) == Norm(partial)
      decreases p
    {
      FoldOnce(p);
      p := p % 0x1_0000 + p / 0x1_0000;
    }
    NormSmall(p);
    r := 0xffff - p;
  }

  /** csum. */
  method Compute(h: Host, data: seq<Byte>) returns (r: U16)
    ensures r == Csum(h, data)
  {
    var partial := Continue(h, 0, data);
    r := Finish(partial);
  }

  lemma NormSmall(x: U16)
    ensures Norm(x) == x
  {
  }

  predicate Cong(x: nat, y: nat) {
    x % 0xffff == y % 0xffff
  }

  lemma CongAdd(x: nat, y: nat, k: int)
    requires Cong(x, y) && x + k >= 0 && y + k >= 0
    ensures Cong(x + k, y + k)
  {
    ModAdd(x, k, 0xffff);
    ModAdd(y, k, 0xffff);
  }

  lemma CongTrans(x: nat, y: nat, z: nat)
    requires Cong(x, y) && (Cong(y, z + 0xffff) && Cong(z, z + 0xffff))
    ensures Cong(x, z)
  {
  }

  lemma CongTurn(x: nat, n: nat)
    ensures Cong(x, x + 0xffff * n)
  {
    ModAddMultiple(x, 0xffff, n);
  }

  /** Congruent positive sums reduce to the same value. */
  lemma NormCongruent(x: nat, y: nat)
    requires x > 0 && y > 0 && Cong(x, y)
    ensures Norm(x) == Norm(y)
  {
    CongAdd(x, y, -1);
  }

  lemma NormMod(x: nat)
    ensures Cong(Norm(x), x)
  {
    if x > 0 {
      ModAdd(x - 1, 1, 0xffff);
    }
  }

  lemma FoldOnce(p: nat)
    requires p >= 0x1_0000
    ensures Norm(p % 0x1_0000 + p / 0x1_0000) == Norm(p)
  {
    var lo, hi := p % 0x1_0000, p / 0x1_0000;
    CongTurn(lo + hi, hi);
    NormCongruent(lo + hi, p);
  }

  lemma {:induction false} SumBound(h: Host, d: seq<Byte>)
    ensures Sum(h, d) <= (|d| + 1) / 2 * 0xffff
  {
    if |d| > 1 {
      SumBound(h, d[2..]);
    }
  }

  /** Up to 65537 words the 32-bit sum cannot overflow, so it is exact. */
  lemma NoOverflow(h: Host, d: seq<Byte>)
    requires |d| <= 2 * 65537
    ensures Sum(h, d) < WRAP && Csum(h, d) == 0xffff - Norm(Sum(h, d))
  {
    hide Sum, Norm;
    SumBound(h, d);
    assert (|d| + 1) / 2 <= 65537;
    ModUnique(Sum(h, d), WRAP, 0, Sum(h, d));
  }

  lemma {:induction false} SumAppend(h: Host, a: seq<Byte>, b: seq<Byte>)
    requires Even(|a|)
    ensures Sum(h, a + b) == Sum(h, a) + Sum(h, b)
  {
    if a == [] {
      assert a + b == b;
    } else {
      SumAppend(h, a[2..], b);
      assert (a + b)[2..] == a[2..] + b;
    }
  }

  /** Continuing over an even split is the same as over the whole. */
  lemma ContinueComposes(h: Host, partial: U32, a: seq<Byte>, b: seq<Byte>)
    requires Even(|a|)
    ensures ((partial + Sum(h, a)) % WRAP + Sum(h, b)) % WRAP == (partial + Sum(h, a + b)) % WRAP
  {
    SumAppend(h, a, b);
    ModAdd(partial + Sum(h, a), Sum(h, b), WRAP);
  }

  predicate AllZero(d: seq<Byte>) {
    forall i :: 0 <= i < |d| ==> d[i] == 0
  }

  lemma {:induction false} SumZero(h: Host, d: seq<Byte>)
    ensures Sum(h, d) == 0 <==> AllZero(d)
  {
    if |d| > 1 {
      SumZero(h, d[2..]);
      assert forall i :: 2 <= i < |d| ==> d[i] == d[2..][i - 2];
    }
  }

  // ------------------------------------------------ an odd last byte

  /** RFC 1071 pads odd data with a zero byte.  Reading the last byte as it
      stands does that on a little-endian host; on a big-endian host only if
      that byte is zero. */
  lemma OddIsPadded(h: Host, d: seq<Byte>)
    requires |d| % 2 == 1 && |d| <= 2 * 65537
    ensures Csum(h, d) == Csum(h, d + [0]) <==> (h == Little || d[|d| - 1] == 0)
  {
    hide Norm, Csum;
    var n := |d| - 1;
    var b, s := d[n], Sum(h, d[..n]);
    assert d == d[..n] + [b] && d + [0] == d[..n] + [b, 0];
    SumAppend(h, d[..n], [b]);
    SumAppend(h, d[..n], [b, 0]);
    SumTwo(h, [b, 0]);
    NoOverflow(h, d);
    NoOverflow(h, d + [0]);
    BigOdd(s, b);
  }

  lemma BigOdd(s: nat, b: Byte)
    ensures Norm(s + b) == Norm(s + 256 * b) <==> b == 0
  {
    if b != 0 {
      NormMod(s + b);
      NormMod(s + 256 * b);
      NotCongruent(s + b, 255 * b);
    }
  }

  lemma NotCongruent(x: nat, d: nat)
    requires 0 < d < 0xffff
    ensures !Cong(x, x + d)
  {
    RingDistinct(x, 0, d, 0xffff);
  }

  // ------------------------------------------------ incremental update

  /** recalc_csum16. */
  method Recalc16(oldCsum: U16, old16: U16, new16: U16) returns (r: U16)
    ensures r == Update(oldCsum, old16, new16)
  {
    var sum := (0xffff - oldCsum) + (0xffff - old16) + new16;
    r := Finish(sum);
  }

  function Update(c: U16, was: U16, now: U16): U16 {
    0xffff - Norm(0xffff - c + (0xffff - was) + now)
  }

  /** recalc_csum32. */
  method Recalc32(oldCsum: U16, old32: U32, new32: U32) returns (r: U16)
    ensures r == Update32(oldCsum, old32, new32)
  {
    r := Recalc16(oldCsum, old32 % 0x1_0000, new32 % 0x1_0000);
    r := Recalc16(r, old32 / 0x1_0000, new32 / 0x1_0000);
  }

  function Update32(c: U16, was: U32, now: U32): U16 {
    Update(Update(c, was % 0x1_0000, now % 0x1_0000), was / 0x1_0000, now / 0x1_0000)
  }

  /** recalc_csum128. */
  method Recalc128(oldCsum: U16, old32: seq<U32>, new32: seq<U32>) returns (r: U16)
    requires |old32| == |new32| == 4
    ensures r == UpdateAll(oldCsum, old32, new32)
  {
    r := oldCsum;
    var i := 0;
    while i < 4
      invariant i <= 4 && UpdateAll(r, old32[i..], new32[i..]) == UpdateAll(oldCsum, old32, new32)
    {
      assert old32[i..][1..] == old32[i + 1..] && new32[i..][1..] == new32[i + 1..];
      r := Recalc32(r, old32[i], new32[i]);
      i := i + 1;
    }
  }

  function UpdateAll(c: U16, was: seq<U32>, now: seq<U32>): U16
    requires |was| == |now|
    decreases |was|
  {
    if was == [] then c else UpdateAll(Update32(c, was[0], now[0]), was[1..], now[1..])
  }

  /** c is a checksum of a sum of s, up to the two forms of zero. */
  predicate Sums(c: U16, s: nat) {
    Cong(0xffff - c, s) && (c == 0xffff ==> s == 0)
  }

  lemma CsumSums(s: nat)
    ensures Sums(0xffff - Norm(s), s)
  {
    NormMod(s);
  }

  /** One update follows the sum; its result is never that of a zero sum. */
  lemma UpdateSums(c: U16, s: nat, was: U16, now: U16)
    requires Sums(c, s) && was <= s
    ensures Sums(Update(c, was, now), s - was + now) && Update(c, was, now) != 0xffff
  {
    hide Cong, Norm;
    var x, s1 := 0xffff - c + (0xffff - was) + now, s - was + now;
    NormMod(x);
    CongAdd(0xffff - c, s, 0xffff - was + now);
    CongTurn(s1, 1);
    CongTrans(Norm(x), x, s1);
  }

  lemma Update32Sums(c: U16, s: nat, was: U32, now: U32)
    requires Sums(c, s) && was % 0x1_0000 + was / 0x1_0000 <= s
    ensures Sums(Update32(c, was, now), s - was % 0x1_0000 - was / 0x1_0000 + now % 0x1_0000 + now / 0x1_0000)
    ensures Update32(c, was, now) != 0xffff
  {
    hide Update, Sums;
    UpdateSums(c, s, was % 0x1_0000, now % 0x1_0000);
    UpdateSums(Update(c, was % 0x1_0000, now % 0x1_0000), s - was % 0x1_0000 + now % 0x1_0000, was / 0x1_0000, now / 0x1_0000);
  }

  /** The halves of the 32-bit words of some data, added up. */
  function Halves(ds: seq<U32>): nat {
    if ds == [] then 0 else ds[0] % 0x1_0000 + ds[0] / 0x1_0000 + Halves(ds[1..])
  }

  lemma {:induction false} UpdateAllSums(c: U16, s: nat, was: seq<U32>, now: seq<U32>)
    requires |was| == |now| && Sums(c, s) && Halves(was) <= s
    ensures Sums(UpdateAll(c, was, now), s - Halves(was) + Halves(now))
    ensures was != [] ==> UpdateAll(c, was, now) != 0xffff
    decreases |was|
  {
    hide Update32, Sums;
    if was != [] {
      Update32Sums(c, s, was[0], now[0]);
      var s1 := s - was[0] % 0x1_0000 - was[0] / 0x1_0000 + now[0] % 0x1_0000 + now[0] / 0x1_0000;
      UpdateAllSums(Update32(c, was[0], now[0]), s1, was[1..], now[1..]);
    }
  }

  /** A checksum that follows the sum and is not that of zero is the checksum
      of every sum but zero. */
  lemma SumsExact(c: U16, s: nat)
    requires Sums(c, s) && c != 0xffff
    ensures c == 0xffff - Norm(s) <==> s != 0
  {
    if s > 0 {
      NormCongruent(0xffff - c, s);
      NormSmall(0xffff - c);
    }
  }

  /** The data as n 32-bit words. */
  function Doubles(h: Host, d: seq<Byte>, n: nat): (r: seq<U32>)
    requires |d| == 4 * n
    ensures |r| == n
    decreases n
  {
    if n == 0 then [] else [DoubleOf(h, d[..4])] + Doubles(h, d[4..], n - 1)
  }

  lemma {:induction false} SumDoubles(h: Host, d: seq<Byte>, n: nat)
    requires |d| == 4 * n
    ensures Sum(h, d) == Halves(Doubles(h, d, n))
    decreases n
  {
    if n > 0 {
      SumDoubles(h, d[4..], n - 1);
      HalvesOf(h, d[..4]);
      assert d == d[..4] + d[4..];
      SumAppend(h, d[..4], d[4..]);
      var ds := Doubles(h, d, n);
      assert ds[1..] == Doubles(h, d[4..], n - 1);
    }
  }

  lemma HalvesOf(h: Host, d: seq<Byte>)
    requires |d| == 4
    ensures DoubleOf(h, d) % 0x1_0000 + DoubleOf(h, d) / 0x1_0000 == Sum(h, d)
  {
    var w0, w1 := WordOf(h, d[0], d[1]), WordOf(h, d[2], d[3]);
    if h == Little {
      ModUnique(DoubleOf(h, d), 0x1_0000, w1, w0);
    } else {
      ModUnique(DoubleOf(h, d), 0x1_0000, w0, w1);
    }
    SumTwo(h, d[2..]);
  }

  lemma UpdateAllExact(s: nat, was: seq<U32>, now: seq<U32>)
    requires |was| == |now| > 0 && Halves(was) <= s
    ensures var s1 := s - Halves(was) + Halves(now);
            UpdateAll(0xffff - Norm(s), was, now) == 0xffff - Norm(s1) <==> s1 != 0
  {
    hide UpdateAll, Norm, Sums, Halves;
    CsumSums(s);
    UpdateAllSums(0xffff - Norm(s), s, was, now);
    SumsExact(UpdateAll(0xffff - Norm(s), was, now), s - Halves(was) + Halves(now));
  }

  /** The incremental update of n aligned 32-bit words, four for
      recalc_csum128 and one for recalc_csum32, gives the checksum of the new
      data exactly when these are not all zero. */
  lemma RecalcExact(h: Host, p: seq<Byte>, was: seq<Byte>, now: seq<Byte>, s: seq<Byte>, n: nat)
    requires Even(|p|) && |was| == |now| == 4 * n && n > 0 && |p| + |was| + |s| <= 2 * 65537
    ensures UpdateAll(Csum(h, p + was + s), Doubles(h, was, n), Doubles(h, now, n)) == Csum(h, p + now + s)
       <==> !AllZero(p + now + s)
  {
    hide UpdateAll, Norm, Csum, Halves, Sum, AllZero, Doubles, Even;
    EvenFour(n);
    var d0, d1 := p + was + s, p + now + s;
    SumParts(h, p, was, s);
    SumParts(h, p, now, s);
    SumDoubles(h, was, n);
    SumDoubles(h, now, n);
    NoOverflow(h, d0);
    NoOverflow(h, d1);
    UpdateAllExact(Sum(h, d0), Doubles(h, was, n), Doubles(h, now, n));
    SumZero(h, d1);
  }

  lemma SumParts(h: Host, p: seq<Byte>, d: seq<Byte>, s: seq<Byte>)
    requires Even(|p|) && Even(|d|)
    ensures Sum(h, p + d + s) == Sum(h, p) + Sum(h, d) + Sum(h, s)
  {
    SumAppend(h, p + d, s);
    SumAppend(h, p, d);
  }

  /** The same for one 16-bit word, recalc_csum16. */
  lemma Recalc16Exact(h: Host, p: seq<Byte>, was: seq<Byte>, now: seq<Byte>, s: seq<Byte>)
    requires Even(|p|) && |was| == |now| == 2 && |p + was + s| <= 2 * 65537
    ensures Update(Csum(h, p + was + s), WordOf(h, was[0], was[1]), WordOf(h, now[0], now[1])) == Csum(h, p + now + s)
       <==> !AllZero(p + now + s)
  {
    hide Update, Norm, Sums, Csum, Sum, AllZero;
    SumParts(h, p, was, s);
    SumParts(h, p, now, s);
    SumTwo(h, was);
    SumTwo(h, now);
    NoOverflow(h, p + was + s);
    NoOverflow(h, p + now + s);
    var s0, s1 := Sum(h, p + was + s), Sum(h, p + now + s);
    CsumSums(s0);
    UpdateSums(Csum(h, p + was + s), s0, WordOf(h, was[0], was[1]), WordOf(h, now[0], now[1]));
    SumsExact(Update(Csum(h, p + was + s), WordOf(h, was[0], was[1]), WordOf(h, now[0], now[1])), s1);
    SumZero(h, p + now + s);
  }

  lemma SumTwo(h: Host, d: seq<Byte>)
    requires |d| == 2
    ensures Sum(h, d) == WordOf(h, d[0], d[1])
  {
    assert d[2..] == [];
  }
}
