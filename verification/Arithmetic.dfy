/** Powers of two and remainders. */
module Arithmetic {
  const U32: nat := 0x1_0000_0000

  predicate PowerOfTwo(n: nat): (r: bool)
    ensures r ==> n > 0
    decreases n
  {
    n == 1 || (n > 1 && n % 2 == 0 && PowerOfTwo(n / 2))
  }

  function Exp2(k: nat): (r: nat)
    ensures r > 0
  {
    if k == 0 then 1 else 2 * Exp2(k - 1)
  }

  lemma {:induction false} Exp2Power(k: nat)
    ensures PowerOfTwo(Exp2(k))
  {
    if k > 0 {
      Exp2Power(k - 1);
    }
  }

  lemma {:induction false} Exp2Add(a: nat, b: nat)
    ensures Exp2(a + b) == Exp2(a) * Exp2(b)
  {
    if a > 0 {
      Exp2Add(a - 1, b);
    }
  }

  lemma Exp2Four()
    ensures Exp2(4) == 16
  {
  }

  lemma U32Power()
    ensures PowerOfTwo(U32) && Exp2(32) == U32 && Exp2(16) == 0x1_0000
  {
    hide PowerOfTwo, Exp2;
    Exp2Four();
    Exp2Add(4, 4);
    Exp2Add(8, 8);
    Exp2Add(16, 16);
    Exp2Power(32);
  }

  /** Of two powers of two the smaller divides the larger. */
  lemma {:induction false} PowerDivides(n: nat, m: nat)
    requires PowerOfTwo(n) && PowerOfTwo(m) && n <= m
    ensures m % n == 0
    decreases n
  {
    if n > 1 {
      PowerDivides(n / 2, m / 2);
      var q := m / 2 / (n / 2);
      assert m / 2 == n / 2 * q;
      ModUnique(m, n, q, 0);
    }
  }

  lemma MulBig(m: nat, d: int)
    ensures d >= 1 ==> m * d >= m
    ensures d <= -1 ==> m * d <= 0 - m
  {
  }

  lemma ModUnique(x: int, m: nat, q: int, r: nat)
    requires m > 0 && r < m && x == m * q + r
    ensures x % m == r && x / m == q
  {
    var d := x / m - q;
    assert m * d == r - x % m;
    MulBig(m, d);
  }

  /** Adding a multiple changes no remainder. */
  lemma ModAddMultiple(x: int, m: nat, k: int)
    requires m > 0
    ensures (x + m * k) % m == x % m
  {
    ModUnique(x + m * k, m, x / m + k, x % m);
  }

  lemma ModAdd(x: int, y: int, m: nat)
    requires m > 0
    ensures (x % m + y) % m == (x + y) % m
  {
    assert x + y == (x % m + y) + m * (x / m);
    ModAddMultiple(x % m + y, m, x / m);
  }

  lemma ModMod(x: int, big: nat, size: nat)
    requires big > 0 && size > 0 && big % size == 0
    ensures x % big % size == x % size
  {
    var k, q := big / size, x / big;
    assert big == size * k;
    assert big * q == size * (k * q);
    assert x == x % big + size * (k * q);
    ModAddMultiple(x % big, size, k * q);
  }

  /** The remainder, as a function that proofs can treat as a whole. */
  function Wrap(x: int, m: nat): (r: nat)
    requires m > 0
    ensures r < m
  {
    x % m
  }

  lemma WrapAdd(x: int, y: int, m: nat)
    requires m > 0
    ensures Wrap(Wrap(x, m) + y, m) == Wrap(x + y, m)
  {
    ModAdd(x, y, m);
  }

  lemma WrapSmall(x: nat, m: nat)
    requires x < m
    ensures Wrap(x, m) == x
  {
    ModUnique(x, m, 0, x);
  }

  /** Cutting a counter to 32 bits keeps its place in a ring whose size is a
      power of two. */
  lemma RingWrap(x: int, size: nat)
    requires PowerOfTwo(size) && size <= U32
    ensures Wrap(Wrap(x, U32), size) == Wrap(x, size)
  {
    hide PowerOfTwo, Exp2;
    U32Power();
    PowerDivides(size, U32);
    ModMod(x, U32, size);
  }

  /** Places less than a turn apart differ. */
  lemma RingDistinct(x: int, i: nat, j: nat, size: nat)
    requires i < j < i + size
    ensures Wrap(x + i, size) != Wrap(x + j, size)
  {
    var d := (x + j) / size - (x + i) / size;
    assert j - i == size * d + (x + j) % size - (x + i) % size;
    MulBig(size, d);
  }

  /** Short of the end of the ring, places follow each other. */
  lemma RingAfter(x: int, j: nat, size: nat)
    requires size > 0 && Wrap(x, size) + j < size
    ensures Wrap(x + j, size) == Wrap(x, size) + j
  {
    hide Wrap;
    WrapAdd(x, j, size);
    WrapSmall(Wrap(x, size) + j, size);
  }

  /** What is in use lies outside the free space after it. */
  lemma RingBefore(tail: int, n: nat, room: nat, i: nat, size: nat)
    requires i < n && n + room <= size && Wrap(tail + n, size) + room <= size
    ensures var p, h := Wrap(tail + i, size), Wrap(tail + n, size); !(h <= p < h + room)
  {
    hide Wrap;
    var p, h := Wrap(tail + i, size), Wrap(tail + n, size);
    if h <= p < h + room {
      RingAfter(tail + n, p - h, size);
      RingDistinct(tail, i, n + (p - h), size);
      assert false;
    }
  }

  /** The distance between two counters: what was added to the second. */
  lemma Distance(tail: int, n: nat)
    requires n < U32
    ensures Wrap(Wrap(tail + n, U32) - tail, U32) == n
  {
    hide Wrap;
    WrapAdd(tail + n, 0 - tail, U32);
    WrapSmall(n, U32);
  }
}
