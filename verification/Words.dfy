/** Machine-word arithmetic the ring buffer relies on: powers of two, the
    `pos & mask` offset, remainders of shifted positions, and the little-endian
    byte image of a 64-bit word. */
module Words {

  type byte = x: int | 0 <= x < 256

  function Pow2(k: nat): (r: nat)
    ensures r >= 1
  {
    if k == 0 then 1 else 2 * Pow2(k - 1)
  }

  /** Bitwise `x & y` on naturals. */
  function BitAnd(x: nat, y: nat): nat
    decreases x
  {
    if x == 0 then 0 else (x % 2) * (y % 2) + 2 * BitAnd(x / 2, y / 2)
  }

  /** Masking with `2^k - 1` is the remainder modulo `2^k`. */
  lemma {:induction false} MaskIsRemainder(x: nat, k: nat)
    ensures BitAnd(x, Pow2(k) - 1) == x % Pow2(k)
    decreases k
  {
    if k == 0 {
      AndZero(x);
    } else if x != 0 {
      MaskIsRemainder(x / 2, k - 1);
      DoubleRemainder(x, Pow2(k - 1));
      OddMask(Pow2(k - 1));
      assert BitAnd(x, Pow2(k) - 1) == x % 2 + 2 * BitAnd(x / 2, Pow2(k - 1) - 1);
    }
  }

  lemma OddMask(n: nat)
    requires 0 < n
    ensures (2 * n - 1) % 2 == 1 && (2 * n - 1) / 2 == n - 1
  {
  }

  lemma DoubleRemainder(x: nat, n: nat)
    requires 0 < n
    ensures x % (2 * n) == x % 2 + 2 * ((x / 2) % n)
  {
    var h := x / 2;
    assert x == (h / n) * (2 * n) + (x % 2 + 2 * (h % n)) by {
      assert h == (h / n) * n + h % n;
    }
    RemainderUnique(x, 2 * n, h / n, x % 2 + 2 * (h % n));
  }

  lemma {:induction false} AndZero(x: nat)
    ensures BitAnd(x, 0) == 0
  {
    if x != 0 {
      AndZero(x / 2);
    }
  }

  lemma {:induction false} Pow2Monotone(j: nat, k: nat)
    requires j <= k
    ensures Pow2(j) <= Pow2(k) && Pow2(k) % Pow2(j) == 0
    decreases k - j
  {
    if j < k {
      Pow2Monotone(j, k - 1);
      var n, m := Pow2(k - 1), Pow2(j);
      assert n == (n / m) * m;
      assert 2 * n == (2 * (n / m)) * m + 0;
      RemainderUnique(2 * n, m, 2 * (n / m), 0);
    }
  }

  lemma {:induction false} Pow2Sum(j: nat, k: nat)
    ensures Pow2(j + k) == Pow2(j) * Pow2(k)
    decreases j
  {
    if j > 0 {
      Pow2Sum(j - 1, k);
      assert Pow2(j + k) == 2 * (Pow2(j - 1) * Pow2(k));
    }
  }

  lemma Pow2At32()
    ensures Pow2(3) == 8 && Pow2(32) == 0x1_0000_0000
  {
    assert Pow2(4) == 16;
    Pow2Sum(4, 4);
    Pow2Sum(8, 8);
    Pow2Sum(16, 16);
  }

  lemma MultipleInsideWindow(d: int, n: int, v: int)
    requires 0 < n && d * n == v && -n < v < n
    ensures d == 0
  {
    assert d >= 1 ==> d * n >= n;
    assert d <= -1 ==> d * n <= -n;
  }

  lemma RemainderUnique(x: int, n: int, q: int, r: int)
    requires 0 < n && 0 <= r < n && x == q * n + r
    ensures x % n == r && x / n == q
  {
    var d := x / n - q;
    assert d * n == r - x % n by {
      assert x == (x / n) * n + x % n;
      assert d * n == (x / n) * n - q * n;
    }
    MultipleInsideWindow(d, n, r - x % n);
  }

  /** Reducing a position before subtracting does not change the distance
      around the ring. */
  lemma RingDistance(b: int, a: int, n: int)
    requires 0 < n
    ensures (b % n - a) % n == (b - a) % n
  {
    var q, r := (b - a) / n, (b - a) % n;
    assert b % n - a == (q - b / n) * n + r by {
      assert b == (b / n) * n + b % n;
      assert (q - b / n) * n == q * n - (b / n) * n;
    }
    RemainderUnique(b % n - a, n, q - b / n, r);
  }

  /** Congruent positions stay congruent when both are shifted. */
  lemma ShiftCongruent(a: int, b: int, d: int, n: int)
    requires 0 < n && a % n == b % n
    ensures (a + d) % n == (b + d) % n
  {
    RingDistance(a, -d, n);
    RingDistance(b, -d, n);
  }

  /** Congruent bases leave the same distance to any position. */
  lemma DistanceCongruent(a: int, b: int, c: int, n: int)
    requires 0 < n && a % n == b % n
    ensures (c - a) % n == (c - b) % n
  {
    var q := a / n - b / n;
    var p, r := (c - a) / n, (c - a) % n;
    assert c - b == (p + q) * n + r by {
      assert a == (a / n) * n + a % n && b == (b / n) * n + b % n && c - a == p * n + r;
      assert (p + q) * n == p * n + (a / n) * n - (b / n) * n;
    }
    RemainderUnique(c - b, n, p + q, r);
  }

  /** Distinct positions less than one turn apart have distinct remainders. */
  lemma DistinctRemainders(x: int, y: int, n: int)
    requires x < y < x + n
    ensures x % n != y % n
  {
    if x % n == y % n {
      var d := y / n - x / n;
      assert d * n == y - x by {
        assert x == (x / n) * n + x % n && y == (y / n) * n + y % n;
        assert d * n == (y / n) * n - (x / n) * n;
      }
      MultipleInsideWindow(d, n, y - x);
      assert false;
    }
  }

  function LittleEndian(w: nat, k: nat): (s: seq<byte>)
    ensures |s| == k
  {
    if k == 0 then [] else [w % 256] + LittleEndian(w / 256, k - 1)
  }

  function FromLittleEndian(s: seq<byte>): nat {
    if s == [] then 0 else s[0] + 256 * FromLittleEndian(s[1..])
  }

  function Pow256(k: nat): nat {
    if k == 0 then 1 else 256 * Pow256(k - 1)
  }

  /** A word that fits in `k` bytes is read back exactly. */
  lemma {:induction false} WordRoundTrip(w: nat, k: nat)
    requires w < Pow256(k)
    ensures FromLittleEndian(LittleEndian(w, k)) == w
    decreases k
  {
    if k > 0 {
      WordRoundTrip(w / 256, k - 1);
      assert LittleEndian(w, k)[1..] == LittleEndian(w / 256, k - 1);
    }
  }

  /** Bytes are the little-endian form of the word they are read as. */
  lemma {:induction false} BytesRoundTrip(s: seq<byte>)
    ensures LittleEndian(FromLittleEndian(s), |s|) == s
  {
    if s != [] {
      BytesRoundTrip(s[1..]);
      RemainderUnique(FromLittleEndian(s), 256, FromLittleEndian(s[1..]), s[0]);
    }
  }

  lemma {:induction false} ZeroBytes(k: nat, d: nat)
    requires d < k
    ensures LittleEndian(0, k)[d] == 0
  {
    if d > 0 {
      ZeroBytes(k - 1, d - 1);
    }
  }

  /** Writing back the low `j` bytes of a word keeps those and clears the rest. */
  lemma {:induction false} LowBytes(s: seq<byte>, j: nat, d: nat)
    requires d < |s|
    ensures Pow256(j) > 0 && LittleEndian(FromLittleEndian(s) % Pow256(j), |s|)[d] == if d < j then s[d] else 0
    decreases j
  {
    if j == 0 {
      ZeroBytes(|s|, d);
    } else {
      var rest := FromLittleEndian(s[1..]);
      LowWord(s[0], rest, j);
      if d > 0 {
        LowBytes(s[1..], j - 1, d - 1);
      }
    }
  }

  lemma LowWord(b: byte, rest: nat, j: nat)
    requires j > 0
    ensures Pow256(j) > 0 && Pow256(j - 1) > 0
    ensures var w := (b + 256 * rest) % Pow256(j);
      w % 256 == b && w / 256 == rest % Pow256(j - 1)
  {
    Pow256Positive(j - 1);
    var m := Pow256(j - 1);
    var q, r := rest / m, rest % m;
    assert b + 256 * rest == q * (256 * m) + (b + 256 * r) by {
      assert rest == q * m + r;
      assert 256 * (q * m) == q * (256 * m);
    }
    RemainderUnique(b + 256 * rest, 256 * m, q, b + 256 * r);
    RemainderUnique(b + 256 * r, 256, r, b);
  }

  lemma {:induction false} Pow256Positive(j: nat)
    ensures Pow256(j) > 0
  {
    if j > 0 {
      Pow256Positive(j - 1);
    }
  }
}
