/** The encoder as it runs: a cache updated in place and the loops over the user
    and kernel addresses of one stack. */
module InternedEncoder {
  import opened Wrappers
  import opened Naturals
  import opened Interning
  import opened InternedStream

  class InternedCache {
    const hash: seq<nat> -> nat
    var nextCallstackSequence: nat
    var callstackHashToSequence: map<nat, nat>
    var nextFrameSequence: nat
    var pidFrameToSequence: map<Key, nat>
    var unknownFunctionId: Option<nat>
    var nextFunctionId: nat
    var fakeMappingId: Option<nat>
    var nextMappingId: nat
    var isFirstInternedData: bool

    constructor (h: seq<nat> -> nat)
      ensures hash == h && View() == Fresh()
    {
      hash := h;
      nextCallstackSequence, callstackHashToSequence := 0, map[];
      nextFrameSequence, pidFrameToSequence := 0, map[];
      unknownFunctionId, nextFunctionId := None, 0;
      fakeMappingId, nextMappingId := None, 0;
      isFirstInternedData := true;
    }

    ghost function View(): Cache
      reads this
    {
      Cache(nextCallstackSequence, callstackHashToSequence, nextFrameSequence, pidFrameToSequence,
            unknownFunctionId, nextFunctionId, fakeMappingId, nextMappingId, isFirstInternedData)
    }

    function CachedFrame(pid: int, addr: nat): (r: Option<nat>)
      reads this
      ensures r.Some? <==> (pid, addr) in pidFrameToSequence
    {
      if (pid, addr) in pidFrameToSequence then Some(pidFrameToSequence[(pid, addr)]) else None
    }

    function CachedCallstack(ids: seq<nat>): (r: Option<nat>)
      reads this
      ensures r.Some? <==> hash(ids) in callstackHashToSequence
    {
      if hash(ids) in callstackHashToSequence then Some(callstackHashToSequence[hash(ids)]) else None
    }

    method ReserveFrame(pid: int, addr: nat) returns (id: nat)
      modifies this`nextFrameSequence, this`pidFrameToSequence
      ensures old((pid, addr) in pidFrameToSequence) ==>
        View() == old(View()) && id == pidFrameToSequence[(pid, addr)]
      ensures old((pid, addr) !in pidFrameToSequence) ==>
        && id == old(nextFrameSequence)
        && View() == old(View()).(nextFrame := id + 1, frames := old(pidFrameToSequence)[(pid, addr) := id])
    {
      if (pid, addr) in pidFrameToSequence {
        return pidFrameToSequence[(pid, addr)];
      }
      id := nextFrameSequence;
      nextFrameSequence := nextFrameSequence + 1;
      pidFrameToSequence := pidFrameToSequence[(pid, addr) := id];
    }

    method ReserveCallstack(ids: seq<nat>) returns (id: nat)
      modifies this`nextCallstackSequence, this`callstackHashToSequence
      ensures View() == Reserve(old(View()), hash(ids)) && id == View().stacks[hash(ids)]
    {
      if hash(ids) in callstackHashToSequence {
        return callstackHashToSequence[hash(ids)];
      }
      id := nextCallstackSequence;
      nextCallstackSequence := nextCallstackSequence + 1;
      callstackHashToSequence := callstackHashToSequence[hash(ids) := id];
    }

    method GetOrCreateUnknownFunctionId() returns (id: nat)
      modifies this`nextFunctionId, this`unknownFunctionId
      ensures View() == WithUnknown(old(View())) && id == View().unknown.value
    {
      if unknownFunctionId.Some? {
        return unknownFunctionId.value;
      }
      id := nextFunctionId;
      nextFunctionId := nextFunctionId + 1;
      unknownFunctionId := Some(id);
    }

    method GetOrCreateFakeMappingId() returns (id: nat)
      modifies this`fakeMappingId, this`nextMappingId
      ensures View() == WithMapping(old(View())) && View().mapping == Some(id)
    {
      if fakeMappingId.Some? {
        return fakeMappingId.value;
      }
      fakeMappingId := Some(FAKE_MAPPING_ID);
      nextMappingId := FAKE_MAPPING_ID + 1;
      return FAKE_MAPPING_ID;
    }

    method ReserveFunctionId() returns (id: nat)
      modifies this`nextFunctionId
      ensures id == old(nextFunctionId) && View() == old(View()).(nextFunction := id + 1)
    {
      id := nextFunctionId;
      nextFunctionId := nextFunctionId + 1;
    }

    method TakeIsFirstInternedData() returns (wasFirst: bool)
      modifies this`isFirstInternedData
      ensures wasFirst == old(isFirstInternedData) && View() == old(View()).(first := false)
    {
      wasFirst := isFirstInternedData;
      isFirstInternedData := false;
    }
  }

  class Interned {
    const pid: int
    const user: seq<nat>
    const kernel: seq<nat>
    const userSyms: seq<Option<string>>
    const kernelSyms: seq<Option<string>>
    const cache: InternedCache

    constructor (c: InternedCache, call: Call)
      ensures cache == c && Stack() == call
    {
      cache := c;
      pid, user, kernel, userSyms, kernelSyms := call.pid, call.user, call.kernel, call.userSyms, call.kernelSyms;
    }

    function Stack(): Call {
      Call(pid, user, kernel, userSyms, kernelSyms)
    }

    /** The body both loops share. */
    method AddFrame(s: Site, ids: seq<nat>, functions: seq<Named>, frames: seq<FrameDef>)
      returns (ids': seq<nat>, functions': seq<Named>, frames': seq<FrameDef>)
      modifies cache
      ensures Work(cache.View(), ids', functions', frames') == Visit(Work(old(cache.View()), ids, functions, frames), s)
    {
      functions', frames' := functions, frames;
      var isNewFrame := cache.CachedFrame(s.pid, s.addr).None?;
      var frameId := cache.ReserveFrame(s.pid, s.addr);
      ids' := ids + [frameId];
      if isNewFrame {
        var funcId: nat;
        if s.sym.Some? {
          funcId := cache.ReserveFunctionId();
          functions' := functions' + [Named(funcId, s.sym.value)];
        } else {
          funcId := cache.GetOrCreateUnknownFunctionId();
        }
        frames' := frames' + [FrameDef(frameId, funcId, FAKE_MAPPING_ID, s.addr)];
      }
    }

    method Preamble() returns (functions: seq<Named>, mappings: seq<MappingDef>, buildIds: seq<Named>)
      modifies cache
      ensures Work(cache.View(), [], functions, []) == Begin(old(cache.View()))
      ensures mappings == NewMappings(old(cache.View())) && buildIds == NewBuildIds(old(cache.View()))
    {
      functions, mappings, buildIds := [], [], [];
      var needUnknownFunction, needFakeMapping := cache.unknownFunctionId.None?, cache.fakeMappingId.None?;
      if needUnknownFunction {
        var unknownId := cache.GetOrCreateUnknownFunctionId();
        functions := functions + [Named(unknownId, UNKNOWN_FUNCTION)];
      }
      if needFakeMapping {
        var mappingId := cache.GetOrCreateFakeMappingId();
        mappings := mappings + [MappingDef(mappingId, 1, 0, 0x7fff_ffff_ffff_ffff)];
        buildIds := buildIds + [Named(1, "unknown")];
      }
    }

    method Data() returns (id: nat, data: Option<Batch>)
      modifies cache
      ensures var o := Intern(cache.hash, old(cache.View()), Sites(Stack()));
        cache.View() == o.cache && id == o.id && data == o.batch
    {
      hide Visit, VisitAll, Emit, NewMappings, NewBuildIds, Begin, Sites;
      ghost var c0 := cache.View();
      ghost var w0, sites := Begin(c0), Sites(Stack());
      var ids: seq<nat>, frames: seq<FrameDef> := [], [];
      var functions, mappings, buildIds := Preamble();
      var n := Min(|user|, |userSyms|);
      VisitNone(w0, sites);
      SiteCount(Stack());
      var i := n;
      while i > 0
        invariant 0 <= i <= n <= |sites|
        invariant Work(cache.View(), ids, functions, frames) == VisitAll(w0, sites[..n - i])
      {
        i := i - 1;
        UserSiteAt(Stack(), i);
        VisitNext(w0, sites, n - i - 1);
        ids, functions, frames := AddFrame(Site(pid, user[i], userSyms[i]), ids, functions, frames);
      }
      var m := Min(|kernel|, |kernelSyms|);
      while i < m
        invariant 0 <= i <= m && n + m == |sites|
        invariant Work(cache.View(), ids, functions, frames) == VisitAll(w0, sites[..n + i])
      {
        KernelSiteAt(Stack(), i);
        VisitNext(w0, sites, n + i);
        ids, functions, frames := AddFrame(Site(KERNEL_PID, kernel[i], kernelSyms[i]), ids, functions, frames);
        i := i + 1;
      }
      assert sites[..n + m] == sites;
      id, data := Finish(c0, ids, functions, frames, mappings, buildIds);
    }

    method Finish(ghost c0: Cache, ids: seq<nat>, functions: seq<Named>, frames: seq<FrameDef>,
                  mappings: seq<MappingDef>, buildIds: seq<Named>)
      returns (id: nat, data: Option<Batch>)
      requires mappings == NewMappings(c0) && buildIds == NewBuildIds(c0)
      modifies cache
      ensures var o := Emit(cache.hash, c0, Work(old(cache.View()), ids, functions, frames));
        cache.View() == o.cache && id == o.id && data == o.batch
    {
      var newCallstack := cache.CachedCallstack(ids).None?;
      id := cache.ReserveCallstack(ids);
      if newCallstack || functions != [] || frames != [] || mappings != [] {
        var wasFirst := cache.TakeIsFirstInternedData();
        data := Some(Batch(functions, frames, [StackDef(id, ids)], mappings, buildIds, !wasFirst));
      } else {
        data := None;
      }
    }
  }

  lemma VisitNone(w: Work, ss: seq<Site>)
    ensures VisitAll(w, ss[..0]) == w
  {
  }

  lemma VisitNext(w: Work, ss: seq<Site>, k: nat)
    requires k < |ss|
    ensures VisitAll(w, ss[..k + 1]) == Visit(VisitAll(w, ss[..k]), ss[k])
  {
    assert ss[..k + 1][..k] == ss[..k];
  }

  lemma UserSiteAt(call: Call, i: nat)
    requires i < Min(|call.user|, |call.userSyms|)
    ensures var n := Min(|call.user|, |call.userSyms|);
      n <= |Sites(call)| && Sites(call)[n - 1 - i] == Site(call.pid, call.user[i], call.userSyms[i])
  {
  }

  lemma KernelSiteAt(call: Call, i: nat)
    requires i < Min(|call.kernel|, |call.kernelSyms|)
    ensures var n := Min(|call.user|, |call.userSyms|);
      n + i < |Sites(call)| && Sites(call)[n + i] == Site(KERNEL_PID, call.kernel[i], call.kernelSyms[i])
  {
  }

  lemma SiteCount(call: Call)
    ensures |Sites(call)| == Min(|call.user|, |call.userSyms|) + Min(|call.kernel|, |call.kernelSyms|)
  {
  }

  datatype SymbolizerError = Blazesym | EmptySymbols

  /** Turns addresses and what the symbolizer made of them into a stack to
      intern; `None` stands for a symbolizer failure. Without addresses the
      symbolizer is not asked. */
  method Symbolize(pid: int, user: seq<nat>, kernel: seq<nat>,
                   userResult: Option<seq<Option<string>>>, kernelResult: Option<seq<Option<string>>>)
    returns (r: Result<Call, SymbolizerError>)
    ensures r == Err(EmptySymbols) <==>
      || (user == [] && kernel == [])
      || ((user == [] || userResult == Some([])) && (kernel == [] || kernelResult == Some([])))
    ensures r == Err(Blazesym) <==>
      (user != [] && userResult.None?) || (kernel != [] && kernelResult.None?)
    ensures r.Ok? ==>
      && r.value.pid == pid && r.value.user == user && r.value.kernel == kernel
      && (user != [] ==> userResult == Some(r.value.userSyms))
      && (kernel != [] ==> kernelResult == Some(r.value.kernelSyms))
  {
    if user == [] && kernel == [] {
      return Err(EmptySymbols);
    }
    var userSyms: seq<Option<string>>, kernelSyms: seq<Option<string>> := [], [];
    if user != [] {
      if userResult.None? {
        return Err(Blazesym);
      }
      userSyms := userResult.value;
    }
    if kernel != [] {
      if kernelResult.None? {
        return Err(Blazesym);
      }
      kernelSyms := kernelResult.value;
    }
    if userSyms == [] && kernelSyms == [] {
      return Err(EmptySymbols);
    }
    return Ok(Call(pid, user, kernel, userSyms, kernelSyms));
  }
}
