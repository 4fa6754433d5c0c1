/** Serialization in two passes: one that only counts, to reserve room in the
    ring, and one that writes into the room reserved. */
module TwoPassSerialization {
  import opened Wrappers
  import opened Words

  /** A serializer's next move: it may look at its own state and at the position
      the writer reports, and at nothing else. */
  datatype Move<S> = Done | Fail | Write(bytes: seq<byte>, next: S)

  type Serializer<!S> = (S, nat) -> Move<S>

  datatype Outcome = Complete | Broken | Unfinished

  datatype Output = Output(bytes: seq<byte>, outcome: Outcome)

  /** All that is written in the first `n` moves from `pos` on. */
  function Emitted<S>(f: Serializer<S>, s: S, pos: nat, n: nat): Output
    decreases n
  {
    if n == 0 then Output([], Unfinished)
    else match f(s, pos)
      case Done => Output([], Complete)
      case Fail => Output([], Broken)
      case Write(bytes, next) =>
        var rest := Emitted(f, next, pos + |bytes|, n - 1);
        Output(bytes + rest.bytes, rest.outcome)
  }

  /** The serializer stops, well or badly, within `n` moves. */
  predicate Stops<S>(f: Serializer<S>, s: S, n: nat) {
    Emitted(f, s, 0, n).outcome != Unfinished
  }

  /** How long it is watched makes no difference once it stops. */
  lemma {:induction false} MoreMoves<S>(f: Serializer<S>, s: S, pos: nat, n: nat, m: nat)
    requires n <= m && Emitted(f, s, pos, n).outcome != Unfinished
    ensures Emitted(f, s, pos, m) == Emitted(f, s, pos, n)
    decreases n
  {
    match f(s, pos) {
      case Done =>
      case Fail =>
      case Write(bytes, next) => MoreMoves(f, next, pos + |bytes|, n - 1, m - 1);
    }
  }

  class CountingWriter {
    var writeCount: nat
    var totalBytes: nat

    constructor ()
      ensures writeCount == 0 && totalBytes == 0
    {
      writeCount, totalBytes := 0, 0;
    }

    function Pos(): nat
      reads this
    {
      totalBytes
    }

    method Put(bytes: seq<byte>)
      modifies this
      ensures writeCount == old(writeCount) + 1 && totalBytes == old(totalBytes) + |bytes|
    {
      writeCount := writeCount + 1;
      totalBytes := totalBytes + |bytes|;
    }
  }

  class SliceWriter {
    const buf: array<byte>
    var pos: nat

    constructor (b: array<byte>)
      ensures buf == b && pos == 0
    {
      buf, pos := b, 0;
    }

    function Pos(): nat
      reads this
    {
      pos
    }

    /** Copies the bytes in, or fails and copies nothing. */
    method Put(bytes: seq<byte>) returns (ok: bool)
      requires pos <= buf.Length
      modifies this, buf
      ensures ok <==> old(pos) + |bytes| <= buf.Length
      ensures ok ==>
        && pos == old(pos) + |bytes|
        && buf[..] == old(buf[..pos]) + bytes + old(buf[pos + |bytes|..])
      ensures !ok ==> pos == old(pos) && buf[..] == old(buf[..])
    {
      if pos + |bytes| > buf.Length {
        return false;
      }
      forall i | 0 <= i < |bytes| {
        buf[pos + i] := bytes[i];
      }
      pos := pos + |bytes|;
      return true;
    }
  }

  /** The counting pass: the number of bytes the serializer would write, or an
      error exactly when the serializer breaks off. */
  method ComputeLength<S>(f: Serializer<S>, s0: S, ghost n: nat) returns (r: Option<nat>)
    requires Stops(f, s0, n)
    ensures r.Some? <==> Emitted(f, s0, 0, n).outcome == Complete
    ensures r.Some? ==> r.value == |Emitted(f, s0, 0, n).bytes|
  {
    var w := new CountingWriter();
    var s := s0;
    ghost var all, left := Emitted(f, s0, 0, n), n;
    while true
      invariant 0 < left && w.Pos() <= |all.bytes|
      invariant var rest := Emitted(f, s, w.Pos(), left);
        rest.outcome == all.outcome != Unfinished && w.Pos() + |rest.bytes| == |all.bytes|
      decreases left
    {
      match f(s, w.Pos()) {
        case Done => return Some(w.totalBytes);
        case Fail => return None;
        case Write(bytes, next) =>
          w.Put(bytes);
          s, left := next, left - 1;
      }
    }
  }

  lemma NeverAtOnce<S>(f: Serializer<S>, s: S)
    ensures Emitted(f, s, 0, 0).outcome == Unfinished
  {
  }

  lemma Unfold<S>(f: Serializer<S>, s: S, at: nat, left: nat)
    requires left > 0
    ensures f(s, at).Done? ==> Emitted(f, s, at, left) == Output([], Complete)
    ensures f(s, at).Fail? ==> Emitted(f, s, at, left) == Output([], Broken)
    ensures f(s, at).Write? ==>
      && (left == 1 ==> Emitted(f, s, at, left).outcome == Unfinished)
      && var rest := Emitted(f, f(s, at).next, at + |f(s, at).bytes|, left - 1);
         Emitted(f, s, at, left) == Output(f(s, at).bytes + rest.bytes, rest.outcome)
  {
  }

  /** What is still to come completes the whole. */
  predicate Rest(all: Output, at: nat, rest: Output) {
    at <= |all.bytes| && rest.outcome == all.outcome != Unfinished && all.bytes[at..] == rest.bytes
  }

  lemma Advance(all: Output, at: nat, bytes: seq<byte>, rest: Output)
    requires Rest(all, at, Output(bytes + rest.bytes, rest.outcome))
    ensures Rest(all, at + |bytes|, rest) && all.bytes[at..at + |bytes|] == bytes
  {
    assert all.bytes == all.bytes[..at] + all.bytes[at..];
    assert all.bytes == all.bytes[..at] + bytes + rest.bytes;
  }

  /** The writing pass: succeeds exactly when the serializer completes and the
      buffer is large enough, and then the buffer begins with all the bytes and is
      otherwise as before. */
  method SerializeToBuf<S>(f: Serializer<S>, s0: S, buf: array<byte>, ghost n: nat) returns (ok: bool)
    requires Stops(f, s0, n)
    modifies buf
    ensures var out := Emitted(f, s0, 0, n);
      && (ok <==> out.outcome == Complete && |out.bytes| <= buf.Length)
      && (ok ==> buf[..] == out.bytes + old(buf[..])[|out.bytes|..])
  {
    hide Emitted;
    var w := new SliceWriter(buf);
    var s := s0;
    ghost var all, left, before := Emitted(f, s0, 0, n), n, buf[..];
    assert n > 0 by { NeverAtOnce(f, s0); }
    while true
      invariant w.buf == buf && 0 < left && w.pos <= |all.bytes| && w.pos <= buf.Length && |before| == buf.Length
      invariant Rest(all, w.pos, Emitted(f, s, w.pos, left))
      invariant buf[..] == all.bytes[..w.pos] + before[w.pos..]
      modifies w, buf
      decreases left
    {
      Unfold(f, s, w.pos, left);
      match f(s, w.Pos()) {
        case Done =>
          assert all.bytes[..w.pos] == all.bytes;
          return true;
        case Fail => return false;
        case Write(bytes, next) =>
          ghost var p, rest := w.pos, Emitted(f, next, w.pos + |bytes|, left - 1);
          Advance(all, p, bytes, rest);
          assert all.bytes[p..] == bytes + rest.bytes;
          var fits := w.Put(bytes);
          if !fits {
            return false;
          }
          NextChunk(all.bytes, before, buf[..], p, bytes, rest.bytes);
          s, left := next, left - 1;
      }
    }
  }

  lemma NextChunk(all: seq<byte>, before: seq<byte>, now: seq<byte>, p: nat, bytes: seq<byte>, rest: seq<byte>)
    requires p <= |all| && p + |bytes| <= |before| && all[p..] == bytes + rest
    requires now == (all[..p] + before[p..])[..p] + bytes + (all[..p] + before[p..])[p + |bytes|..]
    ensures p + |bytes| <= |all| && all[p + |bytes|..] == rest
    ensures now == all[..p + |bytes|] + before[p + |bytes|..]
  {
    assert all == all[..p] + all[p..];
    assert all == all[..p] + bytes + rest;
    assert all[..p + |bytes|] == all[..p] + bytes;
    assert (all[..p] + before[p..])[p + |bytes|..] == before[p + |bytes|..];
  }
}
