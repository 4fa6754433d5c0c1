/** The kernel program as it runs: handlers that look entries up in the maps and
    update their fields one statement at a time. Each is shown to do exactly one
    step of the request machine. */
module BlockTracker {
  import opened Naturals
  import opened BlockDepth
  import opened BlockLatency
  import opened BlockRequests

  class Tracker {
    const config: Config
    var requests: map<nat, Request>
    var depths: map<nat, Depth>
    var stats: map<nat, DevStats>

    constructor (c: Config, devices: set<nat>, at: nat)
      ensures config == c && View() == Boot(devices, at)
    {
      config := c;
      requests, depths, stats := map[], map d | d in devices :: Registered(at), map[];
    }

    ghost function View(): State
      reads this
    {
      State(requests, depths, stats)
    }

    method ChargeElapsed(dev: nat, now: nat)
      requires dev in depths
      modifies this`depths
      ensures depths == old(depths)[dev := Charged(old(depths)[dev], now)]
    {
      if depths[dev].lastUpdate != 0 && now > depths[dev].lastUpdate {
        var elapsed := now - depths[dev].lastUpdate;
        if depths[dev].inflight != 0 {
          depths := depths[dev := depths[dev].(busy := depths[dev].busy + elapsed)];
        }
        if depths[dev].queued != 0 {
          depths := depths[dev := depths[dev].(saturated := depths[dev].saturated + elapsed)];
        }
        depths := depths[dev := depths[dev].(inflightNs := depths[dev].inflightNs + elapsed * depths[dev].inflight)];
        depths := depths[dev := depths[dev].(queuedNs := depths[dev].queuedNs + elapsed * depths[dev].queued)];
      }
    }

    method ChangeDepth(dev: nat, queuedDelta: int, inflightDelta: int, now: nat)
      modifies this`depths
      ensures depths == AdjustDepth(config, old(depths), dev, queuedDelta, inflightDelta, now)
    {
      if !config.saturation || dev !in depths {
        return;
      }
      ChargeElapsed(dev, now);
      var d := depths[dev];
      if queuedDelta > 0 {
        d := d.(queued := d.queued + 1);
      } else if queuedDelta < 0 && d.queued != 0 {
        d := d.(queued := d.queued - 1);
      }
      if inflightDelta > 0 {
        d := d.(inflight := d.inflight + 1);
      } else if inflightDelta < 0 && d.inflight != 0 {
        d := d.(inflight := d.inflight - 1);
      }
      if d.queued > d.maxQueued {
        d := d.(maxQueued := d.queued);
      }
      if d.inflight > d.maxInflight {
        d := d.(maxInflight := d.inflight);
      }
      d := d.(lastUpdate := now);
      assert d == Adjust(old(depths)[dev], queuedDelta, inflightDelta, now);
      depths := depths[dev := d];
    }

    /** Looks the statistics of `dev` up, creating them if the map has room. */
    method FindStats(dev: nat, now: nat, refused: bool) returns (found: bool)
      modifies this`stats
      ensures stats == Touch(old(stats), dev, now, refused) && found == (dev in stats)
    {
      if dev in stats {
        if stats[dev].firstSeen == 0 {
          stats := stats[dev := stats[dev].(firstSeen := now)];
        }
        return true;
      }
      if refused {
        return false;
      }
      stats := stats[dev := NewStats(now)];
      return true;
    }

    method CountBytes(dev: nat, op: Op, bytes: nat, error: bool, now: nat, refused: bool)
      modifies this`stats
      ensures stats == RecordBytes(config, old(stats), dev, op, bytes, error, now, refused)
    {
      hide Touch;
      if !config.bytes && (!config.errors || !error) {
        return;
      }
      var found := FindStats(dev, now, refused);
      if !found {
        return;
      }
      var o := OpOf(stats[dev], op);
      if config.bytes && bytes != 0 {
        o := o.(bytes := o.bytes + bytes);
      }
      if config.errors && error {
        o := o.(errors := o.errors + 1);
      }
      stats := PutOp(stats, dev, op, o, now);
    }

    method CountCompletion(dev: nat, op: Op, queueNs: nat, serviceNs: nat, totalNs: nat, now: nat, refused: bool)
      modifies this`stats
      ensures stats == RecordCompletion(config, old(stats), dev, op, queueNs, Latency(serviceNs, totalNs), now, refused)
    {
      hide Touch, Bucket, Bump;
      if !config.operations && !config.latency {
        return;
      }
      var found := FindStats(dev, now, refused);
      if !found {
        return;
      }
      var o := OpOf(stats[dev], op);
      o := o.(finished := o.finished + [Latency(serviceNs, totalNs)]);
      if config.operations {
        o := o.(operations := o.operations + 1);
      }
      if config.latency {
        o := o.(queueNs := o.queueNs + queueNs);
        o := o.(serviceNs := o.serviceNs + serviceNs);
        o := o.(totalNs := o.totalNs + totalNs);
        var serviceBucket := LatencyBucket(serviceNs);
        var totalBucket := LatencyBucket(totalNs);
        o := o.(serviceHist := Bump(o.serviceHist, serviceBucket));
        o := o.(totalHist := Bump(o.totalHist, totalBucket));
      }
      stats := PutOp(stats, dev, op, o, now);
    }

    method CountLost(dev: nat, now: nat, refused: bool)
      modifies this`stats
      ensures stats == RecordLost(config, old(stats), dev, now, refused)
    {
      hide Touch;
      if config.errors {
        var found := FindStats(dev, now, refused);
        if found {
          stats := stats[dev := stats[dev].(lost := stats[dev].lost + 1)];
        }
      }
    }

    method CountRequeue(dev: nat, now: nat, refused: bool)
      modifies this`stats
      ensures stats == RecordRequeue(config, old(stats), dev, now, refused)
    {
      hide Touch;
      if config.errors {
        var found := FindStats(dev, now, refused);
        if found {
          stats := stats[dev := stats[dev].(requeues := stats[dev].requeues + 1)];
        }
      }
    }

    /** Adds a request that is not yet tracked; false when the map is full. */
    method CreateRequest(id: nat, dev: nat, op: Op, len: nat, now: nat, inserted: bool, full: bool, noStats: bool)
      returns (created: bool)
      requires id !in requests
      modifies this
      ensures created == !full
      ensures full ==>
        && requests == old(requests) && depths == old(depths)
        && stats == RecordLost(config, old(stats), dev, now, noStats)
      ensures !full ==>
        && stats == old(stats) && requests == old(requests)[id := NewRequest(now, dev, op, len, inserted)]
        && depths == if inserted then AdjustDepth(config, old(depths), dev, 1, 0, now) else old(depths)
    {
      hide AdjustDepth, RecordLost;
      if full {
        CountLost(dev, now, noStats);
        return false;
      }
      requests := requests[id := NewRequest(now, dev, op, len, inserted)];
      if inserted {
        ChangeDepth(dev, 1, 0, now);
      }
      return true;
    }

    method RequestInsert(e: Event)
      requires e.Insert?
      modifies this
      ensures View() == Step(config, old(View()), e)
    {
      hide AdjustDepth, RecordLost;
      var id, now := e.id, e.now;
      if !config.tracking || !ShouldTrack(config, e.dev, e.op) {
        return;
      }
      if id !in requests {
        var _ := CreateRequest(id, e.dev, e.op, e.len, now, true, e.full, e.noStats);
        return;
      }
      requests := requests[id := requests[id].(bytes := e.len)];
      if requests[id].remaining < requests[id].bytes {
        requests := requests[id := requests[id].(remaining := requests[id].bytes)];
      }
      if !requests[id].inserted && !requests[id].issued {
        requests := requests[id := requests[id].(insertNs := now)];
        requests := requests[id := requests[id].(inserted := true)];
        ChangeDepth(e.dev, 1, 0, now);
      }
    }

    method RequestMerge(e: Event)
      requires e.Merge?
      modifies this
      ensures View() == Step(config, old(View()), e)
    {
      if config.tracking && e.id in requests {
        requests := requests[e.id := requests[e.id].(bytes := e.len)];
        requests := requests[e.id := requests[e.id].(remaining := requests[e.id].bytes)];
      }
    }

    method RequestIssue(e: Event)
      requires e.Issue?
      modifies this
      ensures View() == Step(config, old(View()), e)
    {
      hide AdjustDepth, RecordLost;
      var id, now := e.id, e.now;
      if !config.tracking || !ShouldTrack(config, e.dev, e.op) {
        return;
      }
      if id !in requests {
        var created := CreateRequest(id, e.dev, e.op, e.len, now, false, e.full, e.noStats);
        if !created {
          return;
        }
      }
      Dispatch(e);
    }

    /** The rest of the issue handler: the request is tracked. */
    method Dispatch(e: Event)
      requires e.Issue? && e.id in requests
      modifies this
      ensures View() == Issued(config, old(View()), old(requests)[e.id], e)
    {
      hide AdjustDepth;
      var id, now := e.id, e.now;
      var state := requests[id];
      if state.inserted {
        ChangeDepth(e.dev, -1, 0, now);
        state := state.(inserted := false);
      }
      if !state.issued {
        ChangeDepth(e.dev, 0, 1, now);
        state := state.(issued := true);
      }
      state := state.(issueNs := now);
      state := state.(bytes := e.len);
      if state.remaining == 0 {
        state := state.(remaining := state.bytes);
      }
      requests := requests[id := state];
    }

    method RequestRequeue(e: Event)
      requires e.Requeue?
      modifies this
      ensures View() == Step(config, old(View()), e)
    {
      hide AdjustDepth, RecordRequeue;
      var id, now := e.id, e.now;
      if !config.errors && !config.tracking {
        return;
      }
      if !ShouldTrack(config, e.dev, e.op) {
        return;
      }
      CountRequeue(e.dev, now, e.noStats);
      if !config.tracking || id !in requests {
        return;
      }
      if requests[id].issued && now > requests[id].issueNs {
        var attempt := now - requests[id].issueNs;
        requests := requests[id := requests[id].(serviceNs := requests[id].serviceNs + attempt)];
        ChangeDepth(requests[id].dev, 0, -1, now);
        requests := requests[id := requests[id].(issued := false)];
      }
      requests := requests[id := requests[id].(requeues := requests[id].requeues + 1)];
      requests := requests[id := requests[id].(issueNs := 0)];
    }

    method RequestComplete(e: Event)
      requires e.Complete?
      modifies this
      ensures View() == Step(config, old(View()), e)
    {
      hide AdjustDepth, RecordBytes, RecordCompletion;
      var id, now := e.id, e.now;
      if !ShouldTrack(config, e.dev, e.op) {
        return;
      }
      CountBytes(e.dev, e.op, e.bytes, e.error, now, e.noStats);
      if !config.tracking {
        return;
      }
      if id !in requests {
        CountCompletion(e.dev, e.op, 0, 0, 0, now, e.noStats);
        return;
      }
      if !(e.error || e.bytes >= requests[id].remaining) {
        requests := requests[id := requests[id].(remaining := requests[id].remaining - e.bytes)];
        return;
      }
      Retire(e);
    }

    /** The rest of the completion handler: the request is done. */
    method Retire(e: Event)
      requires e.Complete? && e.id in requests
      modifies this
      ensures var r, l := old(requests)[e.id], LatencyAt(old(requests)[e.id], e.now);
        && requests == old(requests) - {e.id}
        && depths == (var d1 := if r.issued && e.now > r.issueNs
                                then AdjustDepth(config, old(depths), r.dev, 0, -1, e.now) else old(depths);
                      if r.inserted then AdjustDepth(config, d1, r.dev, -1, 0, e.now) else d1)
        && stats == RecordCompletion(config, old(stats), r.dev, r.op, SatSub(l.total, l.service), l, e.now, e.noStats)
    {
      hide AdjustDepth, RecordCompletion;
      var id, now := e.id, e.now;
      if requests[id].issued && now > requests[id].issueNs {
        requests := requests[id := requests[id].(serviceNs := requests[id].serviceNs + (now - requests[id].issueNs))];
        ChangeDepth(requests[id].dev, 0, -1, now);
        requests := requests[id := requests[id].(issued := false)];
      }
      if requests[id].inserted {
        ChangeDepth(requests[id].dev, -1, 0, now);
        requests := requests[id := requests[id].(inserted := false)];
      }
      var totalNs := if now > requests[id].firstSeen then now - requests[id].firstSeen else 0;
      var queueNs := if totalNs > requests[id].serviceNs then totalNs - requests[id].serviceNs else 0;
      CountCompletion(requests[id].dev, requests[id].op, queueNs, requests[id].serviceNs, totalNs, now, e.noStats);
      requests := requests - {id};
    }
  }

  /** A depth entry with the time since its last update charged to its levels. */
  function Charged(d: Depth, now: nat): Depth {
    var elapsed := if d.lastUpdate != 0 && now > d.lastUpdate then now - d.lastUpdate else 0;
    d.(busy := d.busy + (if d.inflight > 0 then elapsed else 0),
       saturated := d.saturated + (if d.queued > 0 then elapsed else 0),
       inflightNs := d.inflightNs + elapsed * d.inflight,
       queuedNs := d.queuedNs + elapsed * d.queued)
  }
}
