/** What a write into the ring by a thread that owns no record there does: the
    bytes others rely on, and the one such write the code makes, when a discarded
    record's flag is gone at the second look. */
module RingStray {
  import opened Wrappers
  import opened Words
  import opened RingMemory
  import opened RingMachine
  import opened RingInvariant

  // ------------------------------------------------------------ bytes in use

  lemma HeaderIff(mem: seq<byte>, m: seq<byte>, a: nat)
    requires mem != [] && |m| == |mem|
    ensures LoadHeader(m, a) == LoadHeader(mem, a)
       <==> forall x | a <= x < a + HEADER_SIZE :: Cell(m, x) == Cell(mem, x)
  {
    hide ReadBytes, Cell, FromLittleEndian, LittleEndian;
    SameBytes(mem, m, a, HEADER_SIZE);
    BytesRoundTrip(ReadBytes(mem, a, HEADER_SIZE));
    BytesRoundTrip(ReadBytes(m, a, HEADER_SIZE));
  }

  lemma StoredIff(mem: seq<byte>, m: seq<byte>, r: Rec)
    requires mem != [] && |m| == |mem| && Stored(mem, r)
    ensures Stored(m, r) <==> forall x | InRecord(r, x) :: Cell(m, x) == Cell(mem, x)
  {
    hide ReadBytes, Cell, LoadHeader;
    HeaderIff(mem, m, r.start);
    SameBytes(mem, m, r.start + HEADER_SIZE, r.size);
  }

  // ----------------------------------------------------------- stray writes

  /** Whatever is written into the ring, all the invariant needs is that it does
      not change a byte in use; and it needs that. */
  lemma StrayWriteIff(s: State, r: State)
    requires Inv(s) && |r.mem| == |s.mem| && s.eventfd <= r.eventfd
    requires r == s.(mem := r.mem, eventfd := r.eventfd)
    ensures Inv(r) <==> Spares(s, r.mem)
  {
    if Spares(s, r.mem) {
      SparedKeeps(s, r);
    }
    if Inv(r) {
      KeptSpares(s, r);
    }
  }

  lemma SparedKeeps(s: State, r: State)
    requires Inv(s) && |r.mem| == |s.mem| && s.eventfd <= r.eventfd
    requires r == s.(mem := r.mem, eventfd := r.eventfd) && Spares(s, r.mem)
    ensures Inv(r)
  {
    hide Exclusive, BusyHeld, Follows, RecShape, CommittedPayloads, LoadHeader, Stored, Cell;
    forall i | s.head <= i < |s.recs| ensures Stored(r.mem, s.recs[i]) {
      forall x | InRecord(s.recs[i], x) ensures Cell(r.mem, x) == Cell(s.mem, x) {
        assert InUse(s, x);
      }
      StoredIff(s.mem, r.mem, s.recs[i]);
    }
    forall q | q in s.procs ensures ActorOk(RingOf(r), q, s.procs[q]) {
      assert ActorOk(RingOf(s), q, s.procs[q]);
      if s.procs[q].Stamped? {
        assert Stamping(s.procs);
        forall x | s.producer <= x < s.producer + HEADER_SIZE ensures Cell(r.mem, x) == Cell(s.mem, x) {
          assert InUse(s, x);
        }
        HeaderIff(s.mem, r.mem, s.producer);
      }
    }
  }

  lemma KeptSpares(s: State, r: State)
    requires Inv(s) && Inv(r) && |r.mem| == |s.mem| && r == s.(mem := r.mem, eventfd := r.eventfd)
    ensures Spares(s, r.mem)
  {
    hide Exclusive, BusyHeld, Follows, RecShape, CommittedPayloads, LoadHeader, Stored, Cell;
    forall x | InUse(s, x) ensures Cell(r.mem, x) == Cell(s.mem, x) {
      if i :| s.head <= i < |s.recs| && InRecord(s.recs[i], x) {
        assert Stored(s.mem, s.recs[i]) && Stored(r.mem, r.recs[i]);
        StoredIff(s.mem, r.mem, s.recs[i]);
      } else {
        var q :| q in s.procs && s.procs[q].Stamped?;
        assert ActorOk(RingOf(s), q, s.procs[q]) && ActorOk(RingOf(r), q, r.procs[q]);
        HeaderIff(s.mem, r.mem, s.producer);
      }
    }
  }

  // -------------------------------------------------------- the drop's write

  /** The memory after `commit` at a position whose header is not one's own: the
      length is written back, the flags are cleared. */
  function Cleared(mem: seq<byte>, a: nat): (m: seq<byte>)
    requires mem != []
    ensures |m| == |mem|
  {
    StoreHeader(mem, a, Pack(LenOf(LoadHeader(mem, a)), 0))
  }

  /** The position is congruent to one of the four flag bytes of a header at `a`. */
  predicate FlagByte(n: nat, a: nat, x: nat)
    requires n > 0
  {
    4 <= (x - a) % n < 8
  }

  lemma ClearedCell(mem: seq<byte>, a: nat, x: nat)
    requires |mem| >= HEADER_SIZE
    ensures Cell(Cleared(mem, a), x) == if FlagByte(|mem|, a, x) then 0 else Cell(mem, x)
  {
    hide WriteBytes, ReadBytes, LittleEndian, FromLittleEndian, FlagByte, Cell;
    var n, bs := |mem|, ReadBytes(mem, a, HEADER_SIZE);
    var d := (x - a) % n;
    ClearedAt(mem, a, x);
    if d < HEADER_SIZE {
      LowBytes(bs, 4, d);
      FourBytes();
      SameCell(mem, a, x);
    }
    FlagDistance(n, a, x);
  }

  lemma ClearedAt(mem: seq<byte>, a: nat, x: nat)
    requires |mem| >= HEADER_SIZE
    ensures var d, len := (x - a) % |mem|, LenOf(LoadHeader(mem, a));
      Cell(Cleared(mem, a), x) == if d < HEADER_SIZE then LittleEndian(len, HEADER_SIZE)[d] else Cell(mem, x)
  {
    hide WriteBytes, LittleEndian, LoadHeader, LenOf;
    RingDistance(x, a, |mem|);
    CellAt(mem, a, LittleEndian(Pack(LenOf(LoadHeader(mem, a)), 0), HEADER_SIZE), x % |mem|);
  }

  lemma SameCell(mem: seq<byte>, a: nat, x: nat)
    requires mem != [] && (x - a) % |mem| < HEADER_SIZE
    ensures ReadBytes(mem, a, HEADER_SIZE)[(x - a) % |mem|] == Cell(mem, x)
  {
    var n := |mem|;
    var d := (x - a) % n;
    RemainderUnique(d, n, 0, d);
    ShiftCongruent(x - a, d, a, n);
  }

  lemma FlagDistance(n: nat, a: nat, x: nat)
    requires n > 0
    ensures FlagByte(n, a, x) <==> 4 <= (x - a) % n < 8
  {
  }

  lemma FourBytes()
    ensures Pow256(4) == WORD32
  {
    assert Pow256(2) == 65536;
  }

  /** Clearing the flags spares the bytes in use if and only if no flag byte that
      is in use was set. */
  lemma ClearedSparesIff(s: State, a: nat)
    requires |s.mem| >= HEADER_SIZE
    ensures Spares(s, Cleared(s.mem, a))
       <==> forall x | InUse(s, x) && FlagByte(|s.mem|, a, x) :: Cell(s.mem, x) == 0
  {
    hide Cell, InUse, FlagByte, Cleared;
    forall x: nat
      ensures Cell(Cleared(s.mem, a), x) == if FlagByte(|s.mem|, a, x) then 0 else Cell(s.mem, x)
    {
      ClearedCell(s.mem, a, x);
    }
  }
}
