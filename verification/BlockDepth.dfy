/** Queue-depth accounting of one block device: the counters the kernel program
    keeps, and the exact time integrals they stand for. */
module BlockDepth {
  import opened Wrappers
  import opened Naturals

  datatype Depth = Depth(
    firstSeen: nat, lastUpdate: nat,
    busy: nat, saturated: nat, inflightNs: nat, queuedNs: nat,
    inflight: nat, queued: nat, maxInflight: nat, maxQueued: nat)

  /** The entry userspace creates for every device before attaching. */
  function Registered(at: nat): Depth {
    Depth(at, at, 0, 0, 0, 0, 0, 0, 0, 0)
  }

  function Move(level: nat, delta: int): nat {
    if delta > 0 then level + 1
    else if delta < 0 && level > 0 then level - 1
    else level
  }

  function Adjust(d: Depth, queuedDelta: int, inflightDelta: int, now: nat): Depth {
    var elapsed := if d.lastUpdate != 0 && now > d.lastUpdate then now - d.lastUpdate else 0;
    var queued, inflight := Move(d.queued, queuedDelta), Move(d.inflight, inflightDelta);
    Depth(d.firstSeen, now,
          d.busy + (if d.inflight > 0 then elapsed else 0),
          d.saturated + (if d.queued > 0 then elapsed else 0),
          d.inflightNs + elapsed * d.inflight,
          d.queuedNs + elapsed * d.queued,
          inflight, queued, Max(d.maxInflight, inflight), Max(d.maxQueued, queued))
  }

  datatype Snapshot = Snapshot(
    firstSeen: nat, busy: nat, saturated: nat, inflightNs: nat, queuedNs: nat,
    inflight: nat, queued: nat, maxInflight: nat, maxQueued: nat)

  function TakeSnapshot(d: Depth, now: nat): Snapshot {
    var elapsed := SatSub(now, d.lastUpdate);
    Snapshot(d.firstSeen,
             d.busy + (if d.inflight > 0 then elapsed else 0),
             d.saturated + (if d.queued > 0 then elapsed else 0),
             d.inflightNs + elapsed * d.inflight,
             d.queuedNs + elapsed * d.queued,
             d.inflight, d.queued, d.maxInflight, d.maxQueued)
  }

  /** What one sample reports: the difference from the previous snapshot of the
      same registration, or everything when there is none. */
  function DepthDelta(s: Snapshot, previous: Option<Snapshot>): Snapshot {
    if previous.None? || previous.value.firstSeen != s.firstSeen then s
    else
      var p := previous.value;
      s.(busy := SatSub(s.busy, p.busy), saturated := SatSub(s.saturated, p.saturated),
         inflightNs := SatSub(s.inflightNs, p.inflightNs), queuedNs := SatSub(s.queuedNs, p.queuedNs))
  }

  /** The four accumulated times, as numbers to add and compare. */
  datatype Times = Times(busy: nat, saturated: nat, inflight: nat, queued: nat)

  function TimesOf(s: Snapshot): Times {
    Times(s.busy, s.saturated, s.inflightNs, s.queuedNs)
  }

  function Plus(a: Times, b: Times): Times {
    Times(a.busy + b.busy, a.saturated + b.saturated, a.inflight + b.inflight, a.queued + b.queued)
  }

  /** `t` nanoseconds spent at the given levels. */
  function Spent(t: nat, inflight: nat, queued: nat): Times {
    Times(if inflight > 0 then t else 0, if queued > 0 then t else 0, t * inflight, t * queued)
  }

  predicate Current(d: Depth, now: nat) {
    0 < d.lastUpdate <= now
  }

  /** Until the next event a snapshot grows linearly with the current levels. */
  lemma SnapshotGrows(d: Depth, t: nat, now: nat)
    requires Current(d, t) && t <= now
    ensures TimesOf(TakeSnapshot(d, now)) == Plus(TimesOf(TakeSnapshot(d, t)), Spent(now - t, d.inflight, d.queued))
  {
    var e := t - d.lastUpdate;
    assert (e + (now - t)) * d.inflight == e * d.inflight + (now - t) * d.inflight;
    assert (e + (now - t)) * d.queued == e * d.queued + (now - t) * d.queued;
  }

  /** An adjustment at `t` loses nothing: later snapshots are the snapshot at
      `t` plus the time since then at the new levels. */
  lemma AdjustKeepsTimes(d: Depth, dq: int, di: int, t: nat, now: nat)
    requires Current(d, t) && t <= now
    ensures var a := Adjust(d, dq, di, t);
      && Current(a, now) && a.firstSeen == d.firstSeen
      && TimesOf(TakeSnapshot(a, now)) == Plus(TimesOf(TakeSnapshot(d, t)), Spent(now - t, a.inflight, a.queued))
  {
  }

  lemma SpentAdds(a: nat, b: nat, inflight: nat, queued: nat)
    ensures Spent(a + b, inflight, queued) == Plus(Spent(a, inflight, queued), Spent(b, inflight, queued))
  {
    assert (a + b) * inflight == a * inflight + b * inflight;
    assert (a + b) * queued == a * queued + b * queued;
  }

  lemma PlusAssociates(a: Times, b: Times, c: Times)
    ensures Plus(Plus(a, b), c) == Plus(a, Plus(b, c))
  {
  }

  lemma NothingSpent(a: Times, inflight: nat, queued: nat)
    ensures Plus(a, Spent(0, inflight, queued)) == a
  {
  }

  predicate AtMost(a: Times, b: Times) {
    a.busy <= b.busy && a.saturated <= b.saturated && a.inflight <= b.inflight && a.queued <= b.queued
  }

  /** Nothing has ever been queued or in flight; such a device is not sampled
      unless it already has statistics. */
  predicate NeverUsed(d: Depth) {
    && d.busy == 0 && d.saturated == 0 && d.inflight == 0 && d.queued == 0
    && d.maxInflight == 0 && d.maxQueued == 0
  }

  /** What every registered depth entry satisfies. */
  predicate Sound(d: Depth) {
    && d.inflight <= d.maxInflight && d.queued <= d.maxQueued
    && (d.maxInflight == 0 ==> d.busy == 0 && d.inflightNs == 0)
    && (d.maxQueued == 0 ==> d.saturated == 0 && d.queuedNs == 0)
  }

  lemma AdjustSound(d: Depth, dq: int, di: int, now: nat)
    requires Sound(d)
    ensures Sound(Adjust(d, dq, di, now))
    ensures NeverUsed(Adjust(d, dq, di, now)) ==> NeverUsed(d)
  {
  }
}
