/** The rolling gear hash: 64-bit modular arithmetic, and the window of bytes its low bits see. */
module Gear {
  import opened Prelude

  const WORD := 0x1_0000_0000_0000_0000

  type byte = b: int | 0 <= b < 256
  type word = w: int | 0 <= w < 0x1_0000_0000_0000_0000

  /** The gear table, any 256 words. */
  type Table = t: seq<word> | |t| == 256 witness seq(256, i => 0)

  /** Bitwise and, bit by bit. */
  function BitAnd(a: nat, b: nat): nat {
    if a == 0 || b == 0 then 0 else a % 2 * (b % 2) + 2 * BitAnd(a / 2, b / 2)
  }

  /** Masking with 2^k - 1 takes the remainder modulo 2^k. */
  lemma {:induction false} MaskIsRemainder(a: nat, k: nat)
    ensures BitAnd(a, Pow2(k) - 1) == a % Pow2(k)
    decreases k
  {
    if k > 0 && a > 0 {
      var p := Pow2(k - 1);
      var m := 2 * p - 1;
      assert m / 2 == p - 1 && m % 2 == 1;
      MaskIsRemainder(a / 2, k - 1);
      HalvedRemainder(a, p);
    } else if a == 0 {
      assert 0 % Pow2(k) == 0;
    }
  }

  lemma HalvedRemainder(a: nat, p: nat)
    requires p >= 1
    ensures a % (2 * p) == a % 2 + 2 * (a / 2 % p)
  {
    var q, r := a / 2 / p, a / 2 % p;
    assert a / 2 == q * p + r;
    assert a == 2 * (q * p + r) + a % 2;
    RemainderIs(a, 2 * p, q, a % 2 + 2 * r);
  }

  lemma RemainderIs(a: int, m: nat, q: int, r: int)
    requires m >= 1 && 0 <= r < m && a == q * m + r
    ensures a % m == r
  {
    var d, r' := a / m - q, a % m;
    Distributes(a / m, q, m);
    assert d * m == r - r';
    if d >= 1 {
      AtLeast(d, m);
    } else if d <= -1 {
      AtLeast(-d, m);
      Distributes(0, d, m);
    }
  }

  lemma AtLeast(d: int, m: nat)
    requires d >= 1
    ensures d * m >= m
  {
    Distributes(d, 1, m);
    assert (d - 1) * m >= 0;
  }

  lemma Distributes(a: int, b: int, m: int)
    ensures (a - b) * m == a * m - b * m
  {
  }

  // ---- The smallest power of two ----

  method NextPowerOfTwo(n: int) returns (p: nat, ghost k: nat)
    ensures p == Pow2(k) && p >= n && (k == 0 || Pow2(k - 1) < n)
  {
    k := 0;
    if n <= 1 {
      return 1, 0;
    }
    p := 1;
    while p < n
      invariant p == Pow2(k) && (k == 0 || Pow2(k - 1) < n)
      decreases n - p
    {
      p := p * 2;
      k := k + 1;
    }
  }

  // ---- The hash ----

  /** One byte: shift left in 64 bits, add the table entry, wrap. */
  function Roll(h: word, t: word): word { (h * 2 % WORD + t) % WORD }

  function Hash(table: Table, s: seq<byte>): word {
    if s == [] then 0 else Roll(Hash(table, Init(s)), table[Last(s)])
  }

  /** The sum of the table entries of a window, the latest byte weighing least. */
  function Weighted(table: Table, s: seq<byte>): nat {
    if s == [] then 0 else 2 * Weighted(table, Init(s)) + table[Last(s)]
  }

  function Window(s: seq<byte>, k: nat): seq<byte> { if |s| <= k then s else s[|s| - k..] }

  lemma {:induction false} HashIsWeighted(table: Table, s: seq<byte>)
    ensures Hash(table, s) == Weighted(table, s) % WORD
  {
    if s != [] {
      HashIsWeighted(table, Init(s));
      WrapsAway(Weighted(table, Init(s)), table[Last(s)], WORD);
    }
  }

  lemma WrapsAway(a: nat, t: nat, m: nat)
    requires m >= 1
    ensures (a % m * 2 % m + t) % m == (2 * a + t) % m
  {
    var q, r := a / m, a % m;
    assert a == q * m + r;
    var q2, r2 := r * 2 / m, r * 2 % m;
    assert r * 2 == q2 * m + r2;
    var q3, r3 := (r2 + t) / m, (r2 + t) % m;
    assert r2 + t == q3 * m + r3;
    assert 2 * a + t == 2 * (q * m) + q2 * m + q3 * m + r3;
    assert 2 * (q * m) + q2 * m + q3 * m == (2 * q + q2 + q3) * m;
    RemainderIs(2 * a + t, m, 2 * q + q2 + q3, r3);
  }

  /** Bytes older than the window weigh a multiple of 2^k. */
  lemma {:induction false} OldBytesWeighMultiples(table: Table, early: seq<byte>, recent: seq<byte>)
    ensures Weighted(table, early + recent) == Weighted(table, early) * Pow2(|recent|) + Weighted(table, recent)
  {
    if recent == [] {
      assert early + recent == early;
    } else {
      var all := early + recent;
      assert Init(all) == early + Init(recent) && Last(all) == Last(recent);
      OldBytesWeighMultiples(table, early, Init(recent));
      Regroup(Weighted(table, early), Pow2(|recent| - 1), Weighted(table, Init(recent)), table[Last(recent)]);
    }
  }

  lemma Regroup(a: nat, p: nat, w: nat, t: nat)
    ensures 2 * (a * p + w) + t == a * (2 * p) + (2 * w + t)
  {
  }

  /** The low k bits of the hash depend on the last min(k, n) bytes only, by the sum of
      table[b] * 2^j over their distance j from the end. */
  lemma LowBitsAreLocal(table: Table, s: seq<byte>, k: nat)
    requires k <= 64
    ensures Hash(table, s) % Pow2(k) == Weighted(table, Window(s, k)) % Pow2(k)
  {
    HashIsWeighted(table, s);
    hide *;
    Pow2Splits(k, 64 - k);
    PowOf64();
    RemainderOfRemainder(Weighted(table, s), Pow2(k), Pow2(64 - k));
    WindowWeighsSame(table, s, k);
  }

  lemma WindowWeighsSame(table: Table, s: seq<byte>, k: nat)
    ensures Weighted(table, s) % Pow2(k) == Weighted(table, Window(s, k)) % Pow2(k)
  {
    hide Weighted;
    hide Pow2;
    if |s| > k {
      var early, recent := s[..|s| - k], s[|s| - k..];
      assert s == early + recent;
      OldBytesWeighMultiples(table, early, recent);
      DropsMultiple(Weighted(table, early), Pow2(k), Weighted(table, recent));
    }
  }

  lemma DropsMultiple(q: nat, m: nat, r: nat)
    requires m >= 1
    ensures (q * m + r) % m == r % m
  {
    var q', r' := r / m, r % m;
    assert r == q' * m + r';
    assert q * m + r == (q + q') * m + r';
    RemainderIs(q * m + r, m, q + q', r');
  }

  lemma RemainderOfRemainder(a: nat, m: nat, n: nat)
    requires m >= 1 && n >= 1
    ensures m * n >= 1 && a % (m * n) % m == a % m
  {
    assert m * n >= 1;
    var q, r := a / (m * n), a % (m * n);
    assert a == q * (m * n) + r;
    assert q * (m * n) == (n * q) * m;
    DropsMultiple(n * q, m, r);
  }

  lemma {:induction false} Pow2Splits(a: nat, b: nat)
    ensures Pow2(a + b) == Pow2(a) * Pow2(b)
    decreases b
  {
    if b > 0 {
      Pow2Splits(a, b - 1);
      Regroup(Pow2(a), Pow2(b - 1), 0, 0);
    }
  }

  lemma PowOf64()
    ensures Pow2(64) == WORD
  {
    assert Pow2(1) == 2;
    hide Pow2;
    Squared(1, 2);
    Squared(2, 4);
    Squared(4, 0x10);
    Squared(8, 0x100);
    Squared(16, 0x1_0000);
    Squared(32, 0x1_0000_0000);
  }

  lemma Squared(k: nat, v: nat)
    requires Pow2(k) == v
    ensures Pow2(2 * k) == v * v
  {
    Pow2Splits(k, k);
  }

  lemma {:induction false} Pow2Grows(a: nat, b: nat)
    ensures a <= b <==> Pow2(a) <= Pow2(b)
  {
    if a < b {
      Pow2Splits(a, b - a - 1);
      AtLeast(Pow2(b - a - 1), Pow2(a));
    } else if b < a {
      Pow2Splits(b, a - b - 1);
      AtLeast(Pow2(a - b - 1), Pow2(b));
    }
  }
}
