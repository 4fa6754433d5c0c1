/** The data area of the shared buffer: size checks, the doubly mapped view,
    byte ranges addressed around the ring, and the 8-byte record header. */
module RingMemory {
  import opened Words

  const HEADER_SIZE: nat := 8
  const BUSY_FLAG: nat := 0x8000_0000
  const DISCARD_FLAG: nat := 0x4000_0000
  const WORD32: nat := 0x1_0000_0000

  // ---------------------------------------------------------------- sizes

  datatype SizeCheck = Accepted | NotAligned(size: nat) | TooSmall(page: nat)

  predicate IsPowerOfTwo(n: nat) {
    n == 1 || (n > 1 && n % 2 == 0 && IsPowerOfTwo(n / 2))
  }

  function CheckSize(dataSize: nat, page: nat): SizeCheck {
    if !IsPowerOfTwo(dataSize) then NotAligned(dataSize)
    else if dataSize < page then TooSmall(page)
    else Accepted
  }

  lemma {:induction false} PowerOfTwoExponent(n: nat) returns (k: nat)
    requires IsPowerOfTwo(n)
    ensures n == Pow2(k)
  {
    if n == 1 {
      k := 0;
    } else {
      var j := PowerOfTwoExponent(n / 2);
      k := j + 1;
    }
  }

  lemma {:induction false} Pow2IsPowerOfTwo(k: nat)
    ensures IsPowerOfTwo(Pow2(k))
  {
    if k > 0 {
      Pow2IsPowerOfTwo(k - 1);
    }
  }

  /** A size passes both checks exactly when it is a power of two that is no
      smaller than a page. */
  lemma AcceptedSizes(dataSize: nat, page: nat)
    ensures CheckSize(dataSize, page) == Accepted
       <==> page <= dataSize && exists k: nat :: dataSize == Pow2(k)
  {
    if IsPowerOfTwo(dataSize) {
      var k := PowerOfTwoExponent(dataSize);
    }
    forall k: nat | dataSize == Pow2(k) ensures IsPowerOfTwo(dataSize) {
      Pow2IsPowerOfTwo(k);
    }
  }

  // ----------------------------------------------------------- mirrored map

  /** Offset in the backing file of byte `v` of the virtual range: one mapping
      of the metadata page plus the data, then a second mapping of the data. */
  function FileOffset(page: nat, n: nat, v: nat): nat
    requires v < page + 2 * n
  {
    if v < page + n then v else page + (v - (page + n))
  }

  /** Data bytes `o` and `o + n` are the same byte, so any range that starts
      inside the data area and is at most `n` long is contiguous. */
  lemma MirroredView(page: nat, n: nat, o: nat)
    requires o < 2 * n
    ensures FileOffset(page, n, page + o) == page + o % n
  {
    RemainderUnique(o, n, if o < n then 0 else 1, if o < n then o else o - n);
  }

  // ------------------------------------------------------------ byte ranges

  function RoundUp8(len: nat): (r: nat)
    ensures r % 8 == 0 && len <= r < len + 8
  {
    ((len + 7) / 8) * 8
  }

  function TotalSize(size: nat): nat {
    RoundUp8(size + HEADER_SIZE)
  }

  /** The byte at a position, going round the ring. */
  function Cell(mem: seq<byte>, x: nat): byte
    requires mem != []
  {
    mem[x % |mem|]
  }

  function ReadBytes(mem: seq<byte>, a: nat, k: nat): (s: seq<byte>)
    requires mem != []
    ensures |s| == k
  {
    seq(k, i requires 0 <= i < k => mem[(a + i) % |mem|])
  }

  function WriteBytes(mem: seq<byte>, a: nat, bs: seq<byte>): (m: seq<byte>)
    requires mem != []
    ensures |m| == |mem|
  {
    seq(|mem|, c requires 0 <= c < |mem| =>
      var d := (c - a) % |mem|;
      if d < |bs| then bs[d] else mem[c])
  }

  lemma ReadBack(mem: seq<byte>, a: nat, bs: seq<byte>)
    requires mem != [] && |bs| <= |mem|
    ensures ReadBytes(WriteBytes(mem, a, bs), a, |bs|) == bs
  {
    var n := |mem|;
    forall i | 0 <= i < |bs|
      ensures ReadBytes(WriteBytes(mem, a, bs), a, |bs|)[i] == bs[i]
    {
      RingDistance(a + i, a, n);
      RemainderUnique(i, n, 0, i);
    }
  }

  /** A position before or after a range, within one turn of the ring, is not at
      a distance inside the range. */
  lemma OutsideRange(n: nat, a: nat, len: nat, x: nat)
    requires n > 0
    requires (a + len <= x < a + n) || (x < a && a + len <= x + n)
    ensures len <= (x % n - a) % n < n
  {
    RingDistance(x, a, n);
    if x < a {
      RemainderUnique(x - a, n, -1, x - a + n);
    } else {
      RemainderUnique(x - a, n, 0, x - a);
    }
  }

  lemma CellKept(mem: seq<byte>, a: nat, bs: seq<byte>, x: nat)
    requires mem != []
    requires (a + |bs| <= x < a + |mem|) || (x < a && a + |bs| <= x + |mem|)
    ensures Cell(WriteBytes(mem, a, bs), x) == Cell(mem, x)
  {
    OutsideRange(|mem|, a, |bs|, x);
    CellAt(mem, a, bs, x % |mem|);
  }

  lemma CellAt(mem: seq<byte>, a: nat, bs: seq<byte>, c: nat)
    requires c < |mem|
    ensures var d := (c - a) % |mem|;
      WriteBytes(mem, a, bs)[c] == if d < |bs| then bs[d] else mem[c]
  {
  }

  /** The same bytes are read if and only if every cell of the range is the same. */
  lemma SameBytes(mem: seq<byte>, m: seq<byte>, b: nat, k: nat)
    requires mem != [] && |m| == |mem|
    ensures ReadBytes(m, b, k) == ReadBytes(mem, b, k)
       <==> forall x | b <= x < b + k :: Cell(m, x) == Cell(mem, x)
  {
    var l, r := ReadBytes(m, b, k), ReadBytes(mem, b, k);
    if l == r {
      forall x | b <= x < b + k ensures Cell(m, x) == Cell(mem, x) {
        assert l[x - b] == r[x - b];
      }
    }
    if forall x | b <= x < b + k :: Cell(m, x) == Cell(mem, x) {
      forall i | 0 <= i < k ensures l[i] == r[i] {
        assert Cell(m, b + i) == Cell(mem, b + i);
      }
    }
  }

  /** Two ranges that do not meet inside one turn of the ring do not disturb
      each other. */
  lemma ReadElsewhere(mem: seq<byte>, a: nat, bs: seq<byte>, b: nat, k: nat)
    requires mem != []
    requires (a + |bs| <= b && b + k <= a + |mem|) || (b + k <= a && a + |bs| <= b + |mem|)
    ensures ReadBytes(WriteBytes(mem, a, bs), b, k) == ReadBytes(mem, b, k)
  {
    hide WriteBytes, ReadBytes, Cell;
    var m := WriteBytes(mem, a, bs);
    forall x | b <= x < b + k ensures Cell(m, x) == Cell(mem, x) {
      CellKept(mem, a, bs, x);
    }
    SameBytes(mem, m, b, k);
  }

  /** Writing back what is there changes nothing. */
  lemma WriteSame(mem: seq<byte>, a: nat, k: nat)
    requires mem != []
    ensures WriteBytes(mem, a, ReadBytes(mem, a, k)) == mem
  {
    var n, bs := |mem|, ReadBytes(mem, a, k);
    forall c | 0 <= c < n ensures WriteBytes(mem, a, bs)[c] == mem[c] {
      var d := (c - a) % n;
      RemainderUnique(d, n, 0, d);
      ShiftCongruent(c - a, d, a, n);
      RemainderUnique(c, n, 0, c);
    }
  }

  lemma SameCells(mem: seq<byte>, a: nat, a': nat, bs: seq<byte>, k: nat)
    requires mem != [] && a % |mem| == a' % |mem|
    ensures WriteBytes(mem, a, bs) == WriteBytes(mem, a', bs)
    ensures ReadBytes(mem, a, k) == ReadBytes(mem, a', k)
  {
    var n := |mem|;
    forall c | 0 <= c < n ensures WriteBytes(mem, a, bs)[c] == WriteBytes(mem, a', bs)[c] {
      DistanceCongruent(a, a', c, n);
    }
    forall i | 0 <= i < k ensures ReadBytes(mem, a, k)[i] == ReadBytes(mem, a', k)[i] {
      ShiftCongruent(a, a', i, n);
    }
  }

  // ----------------------------------------------------------------- header

  function Pack(len: nat, flags: nat): nat {
    len + flags * WORD32
  }

  function LenOf(w: nat): nat {
    w % WORD32
  }

  function FlagsOf(w: nat): nat {
    (w / WORD32) % WORD32
  }

  predicate HasFlag(flags: nat, bit: nat)
    requires bit > 0
  {
    (flags / bit) % 2 == 1
  }

  function LoadHeader(mem: seq<byte>, a: nat): nat
    requires mem != []
  {
    FromLittleEndian(ReadBytes(mem, a, HEADER_SIZE))
  }

  function StoreHeader(mem: seq<byte>, a: nat, w: nat): (m: seq<byte>)
    requires mem != []
    ensures |m| == |mem|
  {
    WriteBytes(mem, a, LittleEndian(w, HEADER_SIZE))
  }

  /** Length and flags survive the trip through the 8 header bytes. */
  lemma HeaderRoundTrip(mem: seq<byte>, a: nat, len: nat, flags: nat)
    requires |mem| >= HEADER_SIZE && len < WORD32 && flags < WORD32
    ensures LoadHeader(StoreHeader(mem, a, Pack(len, flags)), a) == Pack(len, flags)
    ensures LenOf(Pack(len, flags)) == len && FlagsOf(Pack(len, flags)) == flags
  {
    hide Pow256, LittleEndian, FromLittleEndian, ReadBytes, WriteBytes;
    var w := Pack(len, flags);
    EightBytes();
    WordRoundTrip(w, HEADER_SIZE);
    ReadBack(mem, a, LittleEndian(w, HEADER_SIZE));
    RemainderUnique(w, WORD32, flags, len);
  }

  lemma EightBytes()
    ensures Pow256(8) == WORD32 * WORD32
  {
    assert Pow256(2) == 65536 && Pow256(4) == WORD32 && Pow256(6) == 65536 * WORD32;
  }
}
