/** Flows and masks as arrays of 32-bit words, matching under a mask, and the
    staged hash of the classifier.

    The layout is that of struct flow on a 64-bit build.  A mask word that is
    zero is absent from the compressed mask and takes no part in the hash. */
module Flows {
  import opened Words

  const FLOW_U32S: nat := 50
  const METADATA_OFS: nat := 6
  const TP_PORTS_OFS32: nat := 47

  type Flow = f: seq<Word> | |f| == FLOW_U32S witness seq(50, i => Zero())
  type Mask = Flow

  /** A match field whose prefixes can be tracked: 'words' words at 'ofs'. */
  datatype Field = Field(id: nat, ofs: nat, words: nat)

  predicate FieldOk(fd: Field) {
    fd.words > 0 && fd.ofs + fd.words <= FLOW_U32S
  }

  /** What the classifier takes from elsewhere: the two hash primitives, the
      hash of a mask, and the test of a field's prerequisites. */
  datatype Env = Env(
    add: (Word, Word) -> Word,
    finish: (Word, nat) -> Word,
    maskHash: Mask -> nat,
    prereqs: (Field, Flow) -> bool)

  function FieldWords(f: Flow, fd: Field): (ws: seq<Word>)
    requires FieldOk(fd)
  {
    f[fd.ofs..fd.ofs + fd.words]
  }

  // ------------------------------------------------ matching

  /** 'x' and 'y' have the same bits where 'm' has a one. */
  predicate SameUnder(x: Word, y: Word, m: Word) {
    forall j :: 0 <= j < 32 && m[j] ==> x[j] == y[j]
  }

  /** Agreement of two flows on the masked bits of words [lo, hi). */
  predicate Agree(a: Flow, b: Flow, m: Mask, lo: nat, hi: nat)
    requires hi <= FLOW_U32S
  {
    forall i :: lo <= i < hi ==> SameUnder(a[i], b[i], m[i])
  }

  /** (x ^ y) & m has no bit set. */
  predicate WordMatches(x: Word, y: Word, m: Word) {
    And(Xor(x, y), m) == Zero()
  }

  lemma WordMatchesIsSameUnder(x: Word, y: Word, m: Word)
    ensures WordMatches(x, y, m) <==> SameUnder(x, y, m)
    ensures SameUnder(x, y, m) <==> And(x, m) == And(y, m)
  {
    if And(Xor(x, y), m) == Zero() {
      forall j | 0 <= j < 32 && m[j] ensures x[j] == y[j] {
        assert !And(Xor(x, y), m)[j];
      }
    }
    if And(x, m) == And(y, m) {
      forall j | 0 <= j < 32 && m[j] ensures x[j] == y[j] {
        assert And(x, m)[j] == And(y, m)[j];
      }
    }
  }

  /** miniflow_and_mask_matches_flow: every masked word of the rule's flow
      equals the target's. */
  predicate Matches(flow: Flow, mask: Mask, target: Flow) {
    Agree(flow, target, mask, 0, FLOW_U32S)
  }

  method MatchesFlow(flow: Flow, mask: Mask, target: Flow) returns (ok: bool)
    ensures ok <==> Matches(flow, mask, target)
  {
    for i := 0 to FLOW_U32S
      invariant Agree(flow, target, mask, 0, i)
    {
      WordMatchesIsSameUnder(flow[i], target[i], mask[i]);
      if !WordMatches(flow[i], target[i], mask[i]) {
        return false;
      }
    }
    return true;
  }

  /** A rule's flow is zero wherever its mask is. */
  predicate Canonical(flow: Flow, mask: Mask) {
    forall i :: 0 <= i < FLOW_U32S ==> And(flow[i], mask[i]) == flow[i]
  }

  /** Two canonical flows that agree under the mask are the same flow. */
  lemma CanonicalUnique(a: Flow, b: Flow, mask: Mask)
    requires Canonical(a, mask) && Canonical(b, mask) && Agree(a, b, mask, 0, FLOW_U32S)
    ensures a == b
  {
    forall i | 0 <= i < FLOW_U32S ensures a[i] == b[i] {
      WordMatchesIsSameUnder(a[i], b[i], mask[i]);
    }
  }

  // ------------------------------------------------ wildcards

  /** Every one bit of 'm' in words [lo, hi) is a one bit of 'wc'. */
  predicate Covers(wc: Mask, m: Mask, lo: nat, hi: nat)
    requires hi <= FLOW_U32S
  {
    forall i, j :: lo <= i < hi && 0 <= j < 32 && m[i][j] ==> wc[i][j]
  }

  lemma AgreeCovered(a: Flow, b: Flow, wc: Mask, m: Mask, lo: nat, hi: nat)
    requires hi <= FLOW_U32S && Covers(wc, m, lo, hi) && Agree(a, b, wc, 0, FLOW_U32S)
    ensures Agree(a, b, m, lo, hi)
  {
    forall i | lo <= i < hi ensures SameUnder(a[i], b[i], m[i]) {
      assert SameUnder(a[i], b[i], wc[i]);
    }
  }

  /** flow_wildcards_fold_minimask_range. */
  function FoldRange(wc: Mask, m: Mask, lo: nat, hi: nat): (r: Mask)
    requires lo <= hi <= FLOW_U32S
  {
    seq(FLOW_U32S, i requires 0 <= i < FLOW_U32S => if lo <= i < hi then Or(wc[i], m[i]) else wc[i])
  }

  lemma FoldRangeCovers(wc: Mask, m: Mask, lo: nat, hi: nat)
    requires lo <= hi <= FLOW_U32S
    ensures Covers(FoldRange(wc, m, lo, hi), wc, 0, FLOW_U32S)
    ensures Covers(FoldRange(wc, m, lo, hi), m, lo, hi)
  {
  }

  lemma CoversTrans(a: Mask, b: Mask, c: Mask, lo: nat, hi: nat)
    requires hi <= FLOW_U32S && Covers(a, b, lo, hi) && Covers(b, c, lo, hi)
    ensures Covers(a, c, lo, hi)
  {
  }

  /** The first 'n' bits of a field are un-wildcarded. */
  predicate PrefixSet(wc: Mask, fd: Field, n: nat)
    requires FieldOk(fd) && n <= 32 * fd.words
  {
    forall i :: 0 <= i < n ==> Bits(FieldWords(wc, fd))[i]
  }

  lemma PrefixAgree(a: Flow, b: Flow, wc: Mask, fd: Field, n: nat)
    requires FieldOk(fd) && n <= 32 * fd.words && PrefixSet(wc, fd, n)
    requires Agree(a, b, wc, 0, FLOW_U32S)
    ensures Bits(FieldWords(a, fd))[..n] == Bits(FieldWords(b, fd))[..n]
  {
    forall i | 0 <= i < n
      ensures Bits(FieldWords(a, fd))[i] == Bits(FieldWords(b, fd))[i]
    {
      var k := fd.ofs + i / 32;
      assert Bits(FieldWords(wc, fd))[i];
      assert SameUnder(a[k], b[k], wc[k]);
    }
  }

  /** mask_prefix_bits_set. */
  method MaskPrefixBitsSet(wc: Mask, fd: Field, nbits: nat) returns (ok: bool)
    requires FieldOk(fd) && nbits <= 32 * fd.words
    ensures ok <==> PrefixSet(wc, fd, nbits)
  {
    var zeroes := Zero();
    var i := 0;
    while i < nbits / 32
      invariant i <= nbits / 32
      invariant zeroes == Zero() <==> PrefixSet(wc, fd, 32 * i)
    {
      OrNotZero(zeroes, wc[fd.ofs + i], 32);
      PrefixSetNext(wc, fd, i, 32);
      zeroes := Or(zeroes, And(Not(wc[fd.ofs + i]), HighMask(32)));
      i := i + 1;
    }
    if nbits % 32 != 0 {
      OrNotZero(zeroes, wc[fd.ofs + i], nbits % 32);
      PrefixSetNext(wc, fd, i, nbits % 32);
      zeroes := Or(zeroes, And(Not(wc[fd.ofs + i]), HighMask(nbits % 32)));
    }
    return zeroes == Zero();
  }

  /** The first 'n' bits of a word are all set. */
  predicate Set(w: Word, n: nat)
    requires n <= 32
  {
    forall j :: 0 <= j < n ==> w[j]
  }

  lemma OrNotZero(z: Word, w: Word, n: nat)
    requires n <= 32
    ensures Or(z, And(Not(w), HighMask(n))) == Zero() <==> z == Zero() && Set(w, n)
  {
    var r := Or(z, And(Not(w), HighMask(n)));
    forall j | 0 <= j < 32 ensures r[j] == (z[j] || (!w[j] && j < n)) {
      ShlAt(Ones(), 32 - n, j);
    }
    if r == Zero() {
      forall j | 0 <= j < 32 ensures !z[j] && (j < n ==> w[j]) {
        assert !r[j];
      }
      assert z == Zero();
    }
  }

  lemma PrefixSetNext(wc: Mask, fd: Field, i: nat, n: nat)
    requires FieldOk(fd) && i < fd.words && n <= 32
    ensures PrefixSet(wc, fd, 32 * i + n) <==> PrefixSet(wc, fd, 32 * i) && Set(wc[fd.ofs + i], n)
  {
    var ws := FieldWords(wc, fd);
    var w := wc[fd.ofs + i];
    forall k | 32 * i <= k < 32 * i + n ensures Bits(ws)[k] == w[k - 32 * i] {
      BitsAt(ws, i, k - 32 * i);
    }
    if PrefixSet(wc, fd, 32 * i + n) {
      forall j | 0 <= j < n ensures w[j] {
        assert Bits(ws)[32 * i + j];
      }
    }
  }

  /** mask_set_prefix_bits. */
  method MaskSetPrefixBits(wc: Mask, fd: Field, nbits: nat) returns (r: Mask)
    requires FieldOk(fd) && nbits <= 32 * fd.words
    ensures PrefixSet(r, fd, nbits) && Covers(r, wc, 0, FLOW_U32S) && OnlyPrefix(r, wc, fd, nbits)
  {
    hide PrefixSet, Bits, HighMask;
    r := wc;
    NoPrefix(wc, fd);
    var i := 0;
    while i < nbits / 32
      invariant i <= nbits / 32
      invariant PrefixSet(r, fd, 32 * i) && Covers(r, wc, 0, FLOW_U32S) && OnlyPrefix(r, wc, fd, 32 * i)
    {
      PrefixKept(r, r[fd.ofs + i := Ones()], fd, i);
      r := r[fd.ofs + i := Ones()];
      PrefixSetNext(r, fd, i, 32);
      i := i + 1;
    }
    if nbits % 32 != 0 {
      var r' := r[fd.ofs + i := Or(r[fd.ofs + i], HighMask(nbits % 32))];
      PrefixKept(r, r', fd, i);
      HighMaskBits(nbits % 32);
      r := r';
      PrefixSetNext(r, fd, i, nbits % 32);
    }
  }

  /** Bit j of word i is among the first n bits of the field. */
  predicate InPrefix(fd: Field, n: nat, i: int, j: int) {
    fd.ofs <= i < fd.ofs + fd.words && 32 * (i - fd.ofs) + j < n
  }

  /** Nothing but the first n bits of the field was added. */
  predicate OnlyPrefix(r: Mask, wc: Mask, fd: Field, n: nat) {
    forall i, j :: 0 <= i < FLOW_U32S && 0 <= j < 32 && r[i][j] ==> wc[i][j] || InPrefix(fd, n, i, j)
  }

  lemma HighMaskBits(n: nat)
    requires n <= 32
    ensures forall j :: 0 <= j < 32 ==> HighMask(n)[j] == (j < n)
  {
    forall j | 0 <= j < 32 ensures HighMask(n)[j] == (j < n) {
      ShlAt(Ones(), 32 - n, j);
    }
  }

  lemma NoPrefix(wc: Mask, fd: Field)
    requires FieldOk(fd)
    ensures PrefixSet(wc, fd, 0)
  {
  }

  lemma PrefixKept(a: Mask, b: Mask, fd: Field, i: nat)
    requires FieldOk(fd) && i <= fd.words && PrefixSet(a, fd, 32 * i)
    requires FieldWords(a, fd)[..i] == FieldWords(b, fd)[..i]
    ensures PrefixSet(b, fd, 32 * i)
  {
    var x, y := FieldWords(a, fd), FieldWords(b, fd);
    forall k | 0 <= k < 32 * i ensures Bits(y)[k] {
      assert Bits(x)[k];
      assert x[k / 32] == x[..i][k / 32] && y[k / 32] == y[..i][k / 32];
    }
  }

  // ------------------------------------------------ hashing

  /** Unfinished hash over the non-zero mask words of [lo, hi). */
  function FoldHash(env: Env, f: Flow, m: Mask, lo: nat, hi: nat, basis: Word): Word
    requires lo <= hi <= FLOW_U32S
    decreases hi - lo
  {
    if lo == hi then basis
    else FoldHash(env, f, m, lo + 1, hi, if m[lo] == Zero() then basis else env.add(basis, And(f[lo], m[lo])))
  }

  /** Number of non-zero mask words below 'hi'. */
  function MaskWords(m: Mask, hi: nat): nat
    requires hi <= FLOW_U32S
  {
    if hi == 0 then 0 else MaskWords(m, hi - 1) + if m[hi - 1] == Zero() then 0 else 1
  }

  /** Hash of the first 'hi' words under the mask, in one go. */
  function HashUpTo(env: Env, f: Flow, m: Mask, hi: nat): Word
    requires hi <= FLOW_U32S
  {
    env.finish(FoldHash(env, f, m, 0, hi, Zero()), 4 * MaskWords(m, hi))
  }

  /** Continuing from an unfinished value equals hashing in one go. */
  lemma {:induction false} FoldHashSplit(env: Env, f: Flow, m: Mask, lo: nat, mid: nat, hi: nat, basis: Word)
    requires lo <= mid <= hi <= FLOW_U32S
    ensures FoldHash(env, f, m, mid, hi, FoldHash(env, f, m, lo, mid, basis)) == FoldHash(env, f, m, lo, hi, basis)
    decreases mid - lo
  {
    if lo < mid {
      FoldHashSplit(env, f, m, lo + 1, mid, hi, if m[lo] == Zero() then basis else env.add(basis, And(f[lo], m[lo])));
    }
  }

  /** The hash sees only the masked bits. */
  lemma {:induction false} FoldHashAgree(env: Env, a: Flow, b: Flow, m: Mask, lo: nat, hi: nat, basis: Word)
    requires lo <= hi <= FLOW_U32S && Agree(a, b, m, lo, hi)
    ensures FoldHash(env, a, m, lo, hi, basis) == FoldHash(env, b, m, lo, hi, basis)
    decreases hi - lo
  {
    if lo < hi {
      WordMatchesIsSameUnder(a[lo], b[lo], m[lo]);
      FoldHashAgree(env, a, b, m, lo + 1, hi, if m[lo] == Zero() then basis else env.add(basis, And(a[lo], m[lo])));
    }
  }

  lemma HashAgree(env: Env, a: Flow, b: Flow, m: Mask, hi: nat)
    requires hi <= FLOW_U32S && Agree(a, b, m, 0, hi)
    ensures HashUpTo(env, a, m, hi) == HashUpTo(env, b, m, hi)
  {
    FoldHashAgree(env, a, b, m, 0, hi, Zero());
  }

  /** flow_hash_in_minimask_range and minimatch_hash_range: hash words
      [start, end) and keep the unfinished value. */
  method HashRange(env: Env, f: Flow, m: Mask, start: nat, end: nat, basis: Word) returns (hash: Word, basis': Word)
    requires start <= end <= FLOW_U32S
    ensures basis' == FoldHash(env, f, m, start, end, basis)
    ensures hash == env.finish(basis', 4 * MaskWords(m, end))
  {
    basis' := basis;
    var i := start;
    while i < end
      invariant start <= i <= end
      invariant FoldHash(env, f, m, i, end, basis') == FoldHash(env, f, m, start, end, basis)
    {
      if m[i] != Zero() {
        basis' := env.add(basis', And(f[i], m[i]));
      }
      i := i + 1;
    }
    hash := env.finish(basis', 4 * MaskWords(m, end));
  }

  // ------------------------------------------------ prefix masks

  predicate ZerosThenOnes(y: seq<bool>, a: nat) {
    a <= |y| && (forall i :: 0 <= i < a ==> !y[i]) && (forall i :: a <= i < |y| ==> y[i])
  }

  predicate OnesThenZeros(y: seq<bool>, a: nat) {
    a <= |y| && (forall i :: 0 <= i < a ==> y[i]) && (forall i :: a <= i < |y| ==> !y[i])
  }

  /** y & (y + 1) == 0 holds exactly for zeros followed by ones. */
  lemma {:induction false} NoCarry(y: seq<bool>) returns (a: nat)
    requires forall i :: 0 <= i < |y| ==> !(y[i] && Increment(y)[i])
    ensures ZerosThenOnes(y, a)
  {
    if y == [] {
      a := 0;
    } else {
      var n := |y| - 1;
      var x := y[..n];
      if y[n] {
        forall i | 0 <= i < n ensures !(x[i] && Increment(x)[i]) {
          assert !(y[i] && Increment(y)[i]);
        }
        a := NoCarry(x);
      } else {
        a := |y|;
        var z := Increment(y);
        assert z == x + [true];
        forall i | 0 <= i < |y| ensures !y[i] {
          assert i < n ==> z[i] == y[i];
        }
      }
    }
  }

  /** minimask_get_prefix_len: length of the prefix mask in 'ws', 0 if the
      mask is not a prefix.  'tz' is non-zero once the end was seen. */
  function PrefixLenFrom(ws: seq<Word>, nbits: nat, tz: nat): nat {
    if ws == [] then nbits
    else if tz != 0 then
      if ws[0] != Zero() then 0 else PrefixLenFrom(ws[1..], nbits, tz)
    else if And(Not(ws[0]), Increment(Not(ws[0]))) != Zero() then 0
    else
      var z := TrailingZeros(ws[0]);
      PrefixLenFrom(ws[1..], nbits + (32 - z), z)
  }

  function PrefixLen(mask: Mask, fd: Field): nat
    requires FieldOk(fd)
  {
    PrefixLenFrom(FieldWords(mask, fd), 0, 0)
  }

  lemma WordPrefix(w: Word)
    requires And(Not(w), Increment(Not(w))) == Zero()
    ensures OnesThenZeros(w, 32 - TrailingZeros(w))
  {
    var y := Not(w);
    forall i | 0 <= i < |y| ensures !(y[i] && Increment(y)[i]) {
      assert !And(y, Increment(y))[i];
    }
    var a := NoCarry(y);
    var n := 32 - TrailingZeros(w);
    forall i | 0 <= i < n ensures w[i] {
      assert n > 0 && w[n - 1] && !y[n - 1];
      assert !y[i];
    }
  }

  lemma {:induction false} PrefixLenFromShape(ws: seq<Word>, nbits: nat, tz: nat)
    ensures var n := PrefixLenFrom(ws, nbits, tz);
            n == 0 || (nbits <= n <= nbits + 32 * |ws| && (tz != 0 ==> n == nbits)
                       && OnesThenZeros(Bits(ws), n - nbits))
  {
    hide Bits, Increment, And, Not, OnesThenZeros;
    var n := PrefixLenFrom(ws, nbits, tz);
    if ws == [] {
      NoBits();
    } else if n > 0 {
      if tz != 0 {
        PrefixLenFromShape(ws[1..], nbits, tz);
        ConsShape(ws, 0, n - nbits);
      } else {
        var z := TrailingZeros(ws[0]);
        PrefixLenFromShape(ws[1..], nbits + (32 - z), z);
        WordPrefix(ws[0]);
        ConsShape(ws, 32 - z, n - nbits - (32 - z));
      }
    }
  }

  lemma NoBits()
    ensures OnesThenZeros(Bits([]), 0)
  {
  }

  /** A word of 'a' ones followed by words holding 'b' ones. */
  lemma ConsShape(ws: seq<Word>, a: nat, b: nat)
    requires ws != [] && ((ws[0] == Zero() && a == 0) || OnesThenZeros(ws[0], a))
    requires OnesThenZeros(Bits(ws[1..]), b) && (a < 32 ==> b == 0)
    ensures OnesThenZeros(Bits(ws), a + b)
  {
    hide Bits;
    forall k | 0 <= k < 32 * |ws| ensures Bits(ws)[k] == if k < 32 then ws[0][k] else Bits(ws[1..])[k - 32] {
      ConsBit(ws, k);
    }
  }

  lemma ConsBit(ws: seq<Word>, k: nat)
    requires ws != [] && k < 32 * |ws|
    ensures Bits(ws)[k] == if k < 32 then ws[0][k] else Bits(ws[1..])[k - 32]
  {
    assert k >= 32 ==> (k - 32) / 32 == k / 32 - 1 && (k - 32) % 32 == k % 32;
  }

  /** A non-zero prefix length means the field's mask is that many ones
      followed by zeros only. */
  lemma PrefixLenShape(mask: Mask, fd: Field)
    requires FieldOk(fd) && PrefixLen(mask, fd) > 0
    ensures PrefixLen(mask, fd) <= 32 * fd.words
    ensures OnesThenZeros(Bits(FieldWords(mask, fd)), PrefixLen(mask, fd))
  {
    PrefixLenFromShape(FieldWords(mask, fd), 0, 0);
  }

  /** The length of a mask that is a prefix, and 0 for one that is not. */
  lemma PrefixLenExact(mask: Mask, fd: Field, n: nat)
    requires FieldOk(fd) && n > 0
    ensures PrefixLen(mask, fd) == n <==> OnesThenZeros(Bits(FieldWords(mask, fd)), n)
  {
    hide Bits, PrefixLenFrom, OnesThenZeros;
    if PrefixLen(mask, fd) == n {
      PrefixLenShape(mask, fd);
    }
    if OnesThenZeros(Bits(FieldWords(mask, fd)), n) {
      PrefixLenOf(FieldWords(mask, fd), 0, n);
    }
  }

  /** Reading off the words of a prefix mask. */
  lemma {:induction false} PrefixLenOf(ws: seq<Word>, nbits: nat, n: nat)
    requires OnesThenZeros(Bits(ws), n)
    ensures PrefixLenFrom(ws, nbits, 0) == nbits + n
    decreases |ws|
  {
    hide Bits, Increment, And, Not, OnesThenZeros;
    HeadAndTail(ws, n);
    if ws != [] {
      var a := if n < 32 then n else 32;
      TrailingOf(ws[0], a);
      if a < 32 {
        ZerosAfter(ws[1..], nbits + a, 32 - a);
      } else {
        PrefixLenOf(ws[1..], nbits + 32, n - 32);
      }
    }
  }

  lemma HeadAndTail(ws: seq<Word>, n: nat)
    requires OnesThenZeros(Bits(ws), n)
    ensures ws == [] ==> n == 0
    ensures ws != [] ==> var a := if n < 32 then n else 32; OnesThenZeros(ws[0], a) && OnesThenZeros(Bits(ws[1..]), n - a)
  {
    hide Bits;
    BitsSize(ws);
    if ws != [] {
      BitsSize(ws[1..]);
      forall k | 0 <= k < 32 * |ws| ensures Bits(ws)[k] == if k < 32 then ws[0][k] else Bits(ws[1..])[k - 32] {
        ConsBit(ws, k);
      }
      forall k | 0 <= k < 32 * |ws[1..]| ensures Bits(ws[1..])[k] == Bits(ws)[k + 32] {
        ConsBit(ws, k + 32);
      }
    }
  }

  lemma BitsSize(ws: seq<Word>)
    ensures |Bits(ws)| == 32 * |ws|
  {
  }

  lemma TrailingOf(w: Word, a: nat)
    requires OnesThenZeros(w, a)
    ensures TrailingZeros(w) == 32 - a && And(Not(w), Increment(Not(w))) == Zero()
  {
    var y := Not(w);
    ZerosOnesCarry(y, a);
    var z := TrailingZeros(w);
    assert z < 32 ==> w[32 - z - 1];
    assert 0 < a ==> w[a - 1];
  }

  /** Adding one to zeros and then ones leaves no common bit. */
  lemma {:induction false} ZerosOnesCarry(y: seq<bool>, a: nat)
    requires ZerosThenOnes(y, a)
    ensures forall i :: 0 <= i < |y| ==> !(y[i] && Increment(y)[i])
    decreases |y|
  {
    if y != [] {
      var n := |y| - 1;
      if y[n] {
        ZerosOnesCarry(y[..n], a);
      }
    }
  }

  lemma {:induction false} ZerosAfter(ws: seq<Word>, nbits: nat, tz: nat)
    requires tz > 0 && OnesThenZeros(Bits(ws), 0)
    ensures PrefixLenFrom(ws, nbits, tz) == nbits
    decreases |ws|
  {
    hide Bits;
    HeadAndTail(ws, 0);
    if ws != [] {
      assert ws[0] == Zero();
      ZerosAfter(ws[1..], nbits, tz);
    }
  }

  /** Flows that agree under a prefix mask share that many leading bits. */
  lemma PrefixMaskAgree(a: Flow, b: Flow, mask: Mask, fd: Field)
    requires FieldOk(fd) && PrefixLen(mask, fd) > 0 && Agree(a, b, mask, fd.ofs, fd.ofs + fd.words)
    ensures PrefixLen(mask, fd) <= 32 * fd.words
    ensures Bits(FieldWords(a, fd))[..PrefixLen(mask, fd)] == Bits(FieldWords(b, fd))[..PrefixLen(mask, fd)]
  {
    hide PrefixLen;
    PrefixLenShape(mask, fd);
    var n := PrefixLen(mask, fd);
    forall i | 0 <= i < n
      ensures Bits(FieldWords(a, fd))[i] == Bits(FieldWords(b, fd))[i]
    {
      var k := fd.ofs + i / 32;
      assert Bits(FieldWords(mask, fd))[i];
      assert SameUnder(a[k], b[k], mask[k]);
    }
  }
}
