/** 32-bit words as bit strings, most significant bit first.

    The classifier stores flows, masks and trie prefixes as arrays of 32-bit
    words in network byte order, and apart from hashing and one contiguity
    test it only ever uses them bitwise: "bit 0" is the most significant bit
    of the first word. */
module Words {

  type Word = w: seq<bool> | |w| == 32 witness seq(32, i => false)

  function Zero(): (z: Word) {
    seq(32, i => false)
  }

  function Ones(): (z: Word) {
    seq(32, i => true)
  }

  function And(x: Word, y: Word): (z: Word) {
    seq(32, i requires 0 <= i < 32 => x[i] && y[i])
  }

  function Or(x: Word, y: Word): (z: Word) {
    seq(32, i requires 0 <= i < 32 => x[i] || y[i])
  }

  function Xor(x: Word, y: Word): (z: Word) {
    seq(32, i requires 0 <= i < 32 => x[i] != y[i])
  }

  function Not(x: Word): (z: Word) {
    seq(32, i requires 0 <= i < 32 => !x[i])
  }

  function Shl(x: Word, k: nat): (z: Word)
    requires k <= 32
  {
    x[k..] + seq(k, i => false)
  }

  function Shr(x: Word, k: nat): (z: Word)
    requires k <= 32
  {
    seq(k, i => false) + x[..32 - k]
  }

  lemma ShlAt(x: Word, k: nat, i: nat)
    requires k <= 32 && i < 32
    ensures Shl(x, k)[i] == (k + i < 32 && x[k + i])
  {
  }

  lemma ShrAt(x: Word, k: nat, i: nat)
    requires k <= 32 && i < 32
    ensures Shr(x, k)[i] == (k <= i && x[i - k])
  {
  }

  /** The 'n' most significant bits set: ~0u << (32 - n). */
  function HighMask(n: nat): (m: Word)
    requires n <= 32
  {
    Shl(Ones(), 32 - n)
  }

  /** x + 1 modulo 2^|x|, by ripple carry from the least significant bit. */
  function Increment(x: seq<bool>): (z: seq<bool>)
    ensures |z| == |x|
  {
    if x == [] then []
    else
      var n := |x| - 1;
      if x[n] then Increment(x[..n]) + [false] else x[..n] + [true]
  }

  /** Number of trailing zero bits; the whole length for zero. */
  function TrailingZeros(x: seq<bool>): (n: nat)
    ensures n <= |x|
    ensures forall i :: |x| - n <= i < |x| ==> !x[i]
    ensures n < |x| ==> x[|x| - n - 1]
  {
    if x == [] || x[|x| - 1] then 0 else 1 + TrailingZeros(x[..|x| - 1])
  }

  /** Number of leading zero bits, at most 'limit': the source sets a
      sentinel bit after the relevant ones and counts leading zeros. */
  function LeadingZeros(x: seq<bool>, limit: nat): (n: nat)
    requires limit <= |x|
    ensures n <= limit
    ensures forall i :: 0 <= i < n ==> !x[i]
    ensures n < limit ==> x[n]
  {
    if limit == 0 || x[0] then 0 else 1 + LeadingZeros(x[1..], limit - 1)
  }

  /** The bits of an array of words, first word first. */
  function Bits(ws: seq<Word>): (s: seq<bool>)
    ensures |s| == 32 * |ws|
  {
    seq(32 * |ws|, i requires 0 <= i < 32 * |ws| => ws[i / 32][i % 32])
  }

  lemma BitsAt(ws: seq<Word>, k: nat, j: nat)
    requires k < |ws| && j < 32
    ensures Bits(ws)[32 * k + j] == ws[k][j]
  {
    assert (32 * k + j) / 32 == k && (32 * k + j) % 32 == j;
  }

  /** No bit set at or after position 'n'. */
  predicate Clean(x: Word, n: nat) {
    forall i :: n <= i < 32 ==> !x[i]
  }

  /** Length of the longest common prefix of two bit strings. */
  function Lcp(a: seq<bool>, b: seq<bool>): (n: nat)
    ensures n <= |a| && n <= |b|
    ensures a[..n] == b[..n]
    ensures n < |a| && n < |b| ==> a[n] != b[n]
  {
    if a == [] || b == [] || a[0] != b[0] then 0
    else
      var m := Lcp(a[1..], b[1..]);
      assert a[..m + 1] == [a[0]] + a[1..][..m];
      assert b[..m + 1] == [b[0]] + b[1..][..m];
      m + 1
  }

  lemma {:induction false} LcpUnique(a: seq<bool>, b: seq<bool>, n: nat)
    requires n <= |a| && n <= |b|
    requires a[..n] == b[..n]
    requires n < |a| && n < |b| ==> a[n] != b[n]
    ensures n == Lcp(a, b)
    decreases n
  {
    if n > 0 {
      assert a[0] == a[..n][0] && b[0] == b[..n][0];
      assert a[1..][..n - 1] == a[..n][1..] == b[1..][..n - 1];
      LcpUnique(a[1..], b[1..], n - 1);
    }
  }
}
