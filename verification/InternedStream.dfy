/** What the stream of interned batches guarantees as a whole: nothing is used
    before it is defined, nothing is defined twice, batches are emitted exactly
    when needed, and every stack can be read back. */
module InternedStream {
  import opened Wrappers
  import opened Naturals
  import opened Interning

  // ----------------------------------------------------- numbering of one call

  /** New definitions are numbered consecutively from `f0` and `r0`, and new
      frames refer to functions that exist. */
  predicate Numbered(w: Work, f0: nat, r0: nat) {
    && w.cache.nextFunction == f0 + |w.functions| && w.cache.nextFrame == r0 + |w.frames|
    && (forall k | 0 <= k < |w.functions| :: w.functions[k].iid == f0 + k)
    && (forall k | 0 <= k < |w.frames| ::
          w.frames[k].iid == r0 + k && w.frames[k].function_ < w.cache.nextFunction
          && w.frames[k].mapping == FAKE_MAPPING_ID)
    && w.cache.unknown.Some? && w.cache.unknown.value < w.cache.nextFunction
  }

  lemma VisitNumbered(w: Work, s: Site, f0: nat, r0: nat)
    requires Numbered(w, f0, r0)
    ensures Numbered(Visit(w, s), f0, r0)
  {
  }

  lemma {:induction false} VisitAllNumbered(w: Work, ss: seq<Site>, f0: nat, r0: nat)
    requires Numbered(w, f0, r0)
    ensures Numbered(VisitAll(w, ss), f0, r0)
  {
    hide Numbered, Visit;
    if ss != [] {
      VisitAllNumbered(w, ss[..|ss| - 1], f0, r0);
      VisitNumbered(VisitAll(w, ss[..|ss| - 1]), ss[|ss| - 1], f0, r0);
    }
  }

  /** All that is known of one call made after the run `calls`. */
  lemma OneCall(hash: seq<nat> -> nat, calls: seq<seq<Site>>, ss: seq<Site>)
    ensures var t := Run(hash, calls);
      var v := VisitAll(Begin(t.cache), ss);
      && Numbered(v, t.cache.nextFunction, t.cache.nextFrame)
      && IdsOk(v.ids, v.cache.frames, ss) && v.cache.frames.Keys == NoteAll(NamesOf(calls), ss).Keys
      && (forall k | k in v.cache.frames :: v.cache.frames[k] < v.cache.nextFrame)
      && v.cache.stacks == t.cache.stacks && v.cache.nextStack == t.cache.nextStack
      && v.cache.first == t.cache.first
      && (t.cache.first <==> calls == []) && (NewMappings(t.cache) != [] <==> calls == [])
      && (calls != [] && v.frames == [] ==> v.functions == [])
      && (calls == [] ==> v.functions != [])
      && (v.frames != [] ==> exists j :: 0 <= j < |v.ids| && v.ids[j] >= t.cache.nextFrame)
  {
    var t := Run(hash, calls);
    var d, w := Replay(t.batches), Begin(t.cache);
    RunAgrees(hash, calls);
    BeginOk(t.cache, d, NamesOf(calls));
    BeginNumbered(t.cache, d);
    hide Run, Replay, NamesOf, Begin, VisitAll, WorkOk, Coded, Numbered;
    VisitAllOk(w, ss, d, NamesOf(calls));
    VisitAllNumbered(w, ss, t.cache.nextFunction, t.cache.nextFrame);
    FramesBelow(VisitAll(w, ss), d, NoteAll(NamesOf(calls), ss));
  }

  lemma BeginNumbered(c: Cache, d: Decoder)
    requires c == Fresh() || UnknownSet(c, d.functions)
    ensures Numbered(Begin(c), c.nextFunction, c.nextFrame)
  {
  }

  lemma FramesBelow(v: Work, d: Decoder, names: Names)
    requires WorkOk(v, d, names)
    ensures v.cache.frames.Keys == names.Keys
    ensures forall k | k in v.cache.frames :: v.cache.frames[k] < v.cache.nextFrame
  {
    forall k | k in v.cache.frames ensures v.cache.frames[k] < v.cache.nextFrame {
      assert Resolves(v.cache, DefineNames(d.functions, v.functions), DefineFrames(d.frames, v.frames), k, names[k]);
    }
  }

  // ---------------------------------------------------------- when a batch comes

  lemma RunStep(hash: seq<nat> -> nat, calls: seq<seq<Site>>, ss: seq<Site>)
    ensures Run(hash, calls + [ss]) == Record(Run(hash, calls), Intern(hash, Run(hash, calls).cache, ss))
  {
    assert (calls + [ss])[..|calls|] == calls;
  }

  /** With a hash that tells the lists apart, a call emits a batch if and only if
      its frame list was never seen before; the other tests change nothing. */
  lemma BatchIffNew(hash: seq<nat> -> nat, calls: seq<seq<Site>>, ss: seq<Site>)
    requires Injective(hash, Run(hash, calls + [ss]).lists)
    ensures var t := Run(hash, calls);
      var o := Intern(hash, t.cache, ss);
      && (o.batch.Some? <==> o.frames !in t.lists)
      && (o.batch.Some? <==> hash(o.frames) !in t.cache.stacks)
  {
    hide Run, Replay, VisitAll, Begin, Injective, StacksOk, Emit, Numbered;
    var t := Run(hash, calls);
    RunStep(hash, calls, ss);
    OneCall(hash, calls, ss);
    KnownLists(hash, calls);
    EmitFrames(hash, t.cache, VisitAll(Begin(t.cache), ss));
    NewListIff(hash, t, Replay(t.batches).stacks, VisitAll(Begin(t.cache), ss));
  }

  lemma EmitFrames(hash: seq<nat> -> nat, c: Cache, v: Work)
    ensures Emit(hash, c, v).frames == v.ids
  {
  }

  lemma NewListIff(hash: seq<nat> -> nat, t: Trace, ds: map<nat, seq<nat>>, v: Work)
    requires StacksOk(hash, t.cache, ds, t.ids, t.lists) && Injective(hash, t.lists + [v.ids])
    requires v.cache.stacks == t.cache.stacks
    requires forall i, j | 0 <= i < |t.lists| && 0 <= j < |t.lists[i]| :: t.lists[i][j] < t.cache.nextFrame
    requires t.lists != [] && v.frames == [] ==> v.functions == []
    requires t.lists != [] ==> NewMappings(t.cache) == []
    requires v.frames != [] ==> exists j :: 0 <= j < |v.ids| && v.ids[j] >= t.cache.nextFrame
    ensures Emit(hash, t.cache, v).batch.Some? <==> v.ids !in t.lists
    ensures v.ids !in t.lists <==> hash(v.ids) !in t.cache.stacks
  {
    var lists' := t.lists + [v.ids];
    assert lists'[|t.lists|] == v.ids;
    assert forall i | 0 <= i < |t.lists| :: lists'[i] == t.lists[i];
    if hash(v.ids) in t.cache.stacks {
      assert Bound(hash, t.cache, ds, t.lists, hash(v.ids));
      var i :| 0 <= i < |t.lists| && t.lists[i] == ds[t.cache.stacks[hash(v.ids)]];
      assert v.ids == lists'[i];
    }
    if v.ids in t.lists {
      var i :| 0 <= i < |t.lists| && t.lists[i] == v.ids;
      assert v.frames == [];
    }
  }

  lemma KnownLists(hash: seq<nat> -> nat, calls: seq<seq<Site>>)
    ensures var t := Run(hash, calls);
      && StacksOk(hash, t.cache, Replay(t.batches).stacks, t.ids, t.lists)
      && |t.lists| == |calls|
      && forall i, j | 0 <= i < |t.lists| && 0 <= j < |t.lists[i]| :: t.lists[i][j] < t.cache.nextFrame
  {
    RunAgrees(hash, calls);
    var t := Run(hash, calls);
    var d, names := Replay(t.batches), NamesOf(calls);
    hide Run, Replay, NamesOf;
    forall i, j | 0 <= i < |t.lists| && 0 <= j < |t.lists[i]| ensures t.lists[i][j] < t.cache.nextFrame {
      assert IdsOk(t.lists[i], t.cache.frames, calls[i]);
      assert Resolves(t.cache, d.functions, d.frames, KeyOf(calls[i][j]), names[KeyOf(calls[i][j])]);
    }
  }

  // ------------------------------------------------------------- defined once

  function NameIids(ns: seq<Named>): seq<nat> {
    seq(|ns|, k requires 0 <= k < |ns| => ns[k].iid)
  }

  function FrameIids(fs: seq<FrameDef>): seq<nat> {
    seq(|fs|, k requires 0 <= k < |fs| => fs[k].iid)
  }

  function StackIids(ss: seq<StackDef>): seq<nat> {
    seq(|ss|, k requires 0 <= k < |ss| => ss[k].iid)
  }

  function MappingIids(ms: seq<MappingDef>): seq<nat> {
    seq(|ms|, k requires 0 <= k < |ms| => ms[k].iid)
  }

  /** All the ids a run of batches defines, in order, per kind. */
  datatype Defined = Defined(functions: seq<nat>, frames: seq<nat>, stacks: seq<nat>,
                             mappings: seq<nat>, buildIds: seq<nat>)

  function AllDefined(bs: seq<Batch>): Defined {
    if bs == [] then Defined([], [], [], [], [])
    else
      var d, b := AllDefined(bs[..|bs| - 1]), bs[|bs| - 1];
      Defined(d.functions + NameIids(b.functions), d.frames + FrameIids(b.frames),
              d.stacks + StackIids(b.callstacks), d.mappings + MappingIids(b.mappings),
              d.buildIds + NameIids(b.buildIds))
  }

  /** The ids 0, 1, 2, … below `n`, each exactly once. */
  predicate Counts(s: seq<nat>, n: nat) {
    |s| == n && forall k | 0 <= k < n :: s[k] == k
  }

  lemma CountsMore(s: seq<nat>, n: nat, t: seq<nat>)
    requires Counts(s, n) && forall k | 0 <= k < |t| :: t[k] == n + k
    ensures Counts(s + t, n + |t|)
  {
  }

  /** Over any run the k-th function defined has id k and the k-th frame has id
      k, so each id is defined exactly once; the one mapping and build id are
      defined once, by the first call. */
  lemma {:induction false} DefinedOnce(hash: seq<nat> -> nat, calls: seq<seq<Site>>)
    ensures var t := Run(hash, calls);
      var d := AllDefined(t.batches);
      && Counts(d.functions, t.cache.nextFunction) && Counts(d.frames, t.cache.nextFrame)
      && d.mappings == (if calls == [] then [] else [FAKE_MAPPING_ID])
      && d.buildIds == (if calls == [] then [] else [1])
    decreases |calls|
  {
    hide Run, VisitAll, Begin, AllDefined, Emit, NamesOf, Numbered, Counts, Record;
    if calls == [] {
      NothingDefined(hash);
    } else {
      var init, ss := calls[..|calls| - 1], calls[|calls| - 1];
      DefinedOnce(hash, init);
      var t := Run(hash, init);
      OneCall(hash, init, ss);
      RunStep(hash, init, ss);
      assert init + [ss] == calls;
      StepDefines(hash, t, VisitAll(Begin(t.cache), ss));
    }
  }

  lemma StepDefines(hash: seq<nat> -> nat, t: Trace, v: Work)
    requires var d := AllDefined(t.batches);
      Counts(d.functions, t.cache.nextFunction) && Counts(d.frames, t.cache.nextFrame)
    requires Numbered(v, t.cache.nextFunction, t.cache.nextFrame)
    ensures var t' := Record(t, Emit(hash, t.cache, v));
      var d, d' := AllDefined(t.batches), AllDefined(t'.batches);
      && Counts(d'.functions, t'.cache.nextFunction) && Counts(d'.frames, t'.cache.nextFrame)
      && d'.mappings == d.mappings + (if t.cache.mapping.None? then [FAKE_MAPPING_ID] else [])
      && d'.buildIds == d.buildIds + (if t.cache.mapping.None? then [1] else [])
  {
    hide AllDefined, DefinedBy, Emit, Numbered, Counts, NameIids, FrameIids;
    var o, d := Emit(hash, t.cache, v), AllDefined(t.batches);
    DefinedStep(t, o);
    NumberedIids(v, t.cache.nextFunction, t.cache.nextFrame);
    CountsMore(d.functions, t.cache.nextFunction, NameIids(v.functions));
    CountsMore(d.frames, t.cache.nextFrame, FrameIids(v.frames));
    EmitKeeps(hash, t.cache, v);
  }

  lemma NumberedIids(v: Work, f0: nat, r0: nat)
    requires Numbered(v, f0, r0)
    ensures var fs, rs := NameIids(v.functions), FrameIids(v.frames);
      && v.cache.nextFunction == f0 + |fs| && v.cache.nextFrame == r0 + |rs|
      && (forall k | 0 <= k < |fs| :: fs[k] == f0 + k) && (forall k | 0 <= k < |rs| :: rs[k] == r0 + k)
  {
  }

  lemma NothingDefined(hash: seq<nat> -> nat)
    ensures Run(hash, []) == Trace(Fresh(), [], [], []) && AllDefined([]) == Defined([], [], [], [], [])
    ensures Counts([], 0)
  {
  }

  function DefinedBy(b: Option<Batch>): Defined {
    if b.None? then Defined([], [], [], [], [])
    else Defined(NameIids(b.value.functions), FrameIids(b.value.frames), StackIids(b.value.callstacks),
                 MappingIids(b.value.mappings), NameIids(b.value.buildIds))
  }

  lemma DefinedStep(t: Trace, o: Outcome)
    ensures var d, e, b := AllDefined(t.batches), AllDefined(Record(t, o).batches), DefinedBy(o.batch);
      && e.functions == d.functions + b.functions && e.frames == d.frames + b.frames
      && e.stacks == d.stacks + b.stacks && e.mappings == d.mappings + b.mappings
      && e.buildIds == d.buildIds + b.buildIds
  {
    if o.batch.Some? {
      assert (t.batches + [o.batch.value])[..|t.batches|] == t.batches;
    }
  }

  lemma EmitKeeps(hash: seq<nat> -> nat, c: Cache, v: Work)
    ensures var o := Emit(hash, c, v);
      && o.cache.nextFunction == v.cache.nextFunction && o.cache.nextFrame == v.cache.nextFrame
      && DefinedBy(o.batch).functions == NameIids(v.functions) && DefinedBy(o.batch).frames == FrameIids(v.frames)
      && DefinedBy(o.batch).mappings == (if c.mapping.None? then [FAKE_MAPPING_ID] else [])
      && DefinedBy(o.batch).buildIds == (if c.mapping.None? then [1] else [])
      && DefinedBy(o.batch).stacks == (if o.batch.Some? then [o.id] else [])
  {
  }

  /** Callstack ids are defined exactly once too, when the hash tells the frame
      lists of the run apart. */
  lemma {:induction false} StacksDefinedOnce(hash: seq<nat> -> nat, calls: seq<seq<Site>>)
    requires Injective(hash, Run(hash, calls).lists)
    ensures Counts(AllDefined(Run(hash, calls).batches).stacks, Run(hash, calls).cache.nextStack)
    decreases |calls|
  {
    hide Run, VisitAll, Begin, AllDefined, DefinedBy, Injective, NamesOf, Numbered;
    if calls == [] {
      NothingDefined(hash);
    } else {
      var init, ss := calls[..|calls| - 1], calls[|calls| - 1];
      var t := Run(hash, init);
      var o, v := Intern(hash, t.cache, ss), VisitAll(Begin(t.cache), ss);
      assert init + [ss] == calls;
      RunStep(hash, init, ss);
      InjectivePart(hash, t.lists, o.frames);
      StacksDefinedOnce(hash, init);
      BatchIffNew(hash, init, ss);
      OneCall(hash, init, ss);
      DefinedStep(t, o);
      EmitKeeps(hash, t.cache, v);
      CountsMore(AllDefined(t.batches).stacks, t.cache.nextStack, DefinedBy(o.batch).stacks);
    }
  }

  lemma InjectivePart(hash: seq<nat> -> nat, lists: seq<seq<nat>>, l: seq<nat>)
    requires Injective(hash, lists + [l])
    ensures Injective(hash, lists)
  {
    forall i, j | 0 <= i < |lists| && 0 <= j < |lists| && hash(lists[i]) == hash(lists[j])
      ensures lists[i] == lists[j]
    {
      assert (lists + [l])[i] == lists[i] && (lists + [l])[j] == lists[j];
    }
  }

  // ------------------------------------------------- continuation and closure

  /** Everything a batch mentions is defined once it has been applied. */
  predicate ClosedIn(d: Decoder, b: Batch) {
    && (forall k | 0 <= k < |b.frames| ::
          && b.frames[k].function_ in d.functions && b.frames[k].mapping in d.mappings
          && d.mappings[b.frames[k].mapping].buildId in d.buildIds)
    && (forall k, j | 0 <= k < |b.callstacks| && 0 <= j < |b.callstacks[k].frames| ::
          b.callstacks[k].frames[j] in d.frames)
  }

  /** In every run the first batch, and only the first, starts afresh; and each
      batch refers only to what it or an earlier batch defines. */
  lemma {:induction false} DefinedBeforeUse(hash: seq<nat> -> nat, calls: seq<seq<Site>>)
    ensures var bs := Run(hash, calls).batches;
      && (calls != [] ==> bs != [])
      && forall k | 0 <= k < |bs| :: (bs[k].continuation <==> k > 0) && ClosedIn(Replay(bs[..k + 1]), bs[k])
    decreases |calls|
  {
    hide Run, VisitAll, Begin, ClosedIn, NamesOf, Replay, Numbered, Intern;
    if calls == [] {
      NoBatchNoCall(hash, []);
    } else {
      var init, ss := calls[..|calls| - 1], calls[|calls| - 1];
      DefinedBeforeUse(hash, init);
      var t := Run(hash, init);
      var o := Intern(hash, t.cache, ss);
      assert init + [ss] == calls;
      RunStep(hash, init, ss);
      NoBatchNoCall(hash, init);
      FirstContinuation(hash, init, ss);
      if o.batch.Some? {
        LastClosed(hash, init, ss);
        var bs := t.batches + [o.batch.value];
        assert bs[..|bs|] == bs;
        forall k | 0 <= k < |t.batches| ensures ClosedIn(Replay(bs[..k + 1]), bs[k]) {
          assert bs[..k + 1] == t.batches[..k + 1];
        }
      }
    }
  }

  lemma FirstContinuation(hash: seq<nat> -> nat, calls: seq<seq<Site>>, ss: seq<Site>)
    ensures var o := Intern(hash, Run(hash, calls).cache, ss);
      && (calls == [] ==> o.batch.Some?)
      && (o.batch.Some? ==> (o.batch.value.continuation <==> calls != []))
  {
    OneCall(hash, calls, ss);
    hide Run, VisitAll, Begin, NamesOf, Numbered;
  }

  lemma {:induction false} NoBatchNoCall(hash: seq<nat> -> nat, calls: seq<seq<Site>>)
    ensures Run(hash, calls).batches == [] <==> calls == []
    decreases |calls|
  {
    if calls != [] {
      var init, ss := calls[..|calls| - 1], calls[|calls| - 1];
      NoBatchNoCall(hash, init);
      FirstContinuation(hash, init, ss);
    }
  }

  lemma LastClosed(hash: seq<nat> -> nat, calls: seq<seq<Site>>, ss: seq<Site>)
    requires Intern(hash, Run(hash, calls).cache, ss).batch.Some?
    ensures ClosedIn(Replay(Run(hash, calls + [ss]).batches), Intern(hash, Run(hash, calls).cache, ss).batch.value)
  {
    hide Run, Replay, VisitAll, Begin, Emit, NamesOf, ClosedIn;
    var t := Run(hash, calls);
    var v, t' := VisitAll(Begin(t.cache), ss), Run(hash, calls + [ss]);
    RunStep(hash, calls, ss);
    OneCall(hash, calls, ss);
    RunAgrees(hash, calls + [ss]);
    EmitShows(hash, t.cache, v);
    IdsBelow(v.ids, v.cache, ss);
    hide Numbered;
    WorkClosed(v, Replay(t'.batches), t'.cache, Intern(hash, t.cache, ss), t.cache.nextFunction, t.cache.nextFrame);
  }

  lemma IdsBelow(ids: seq<nat>, c: Cache, ss: seq<Site>)
    requires IdsOk(ids, c.frames, ss) && forall k | k in c.frames :: c.frames[k] < c.nextFrame
    ensures forall j | 0 <= j < |ids| :: ids[j] < c.nextFrame
  {
    forall j | 0 <= j < |ids| ensures ids[j] < c.nextFrame {
      assert KeyOf(ss[j]) in c.frames;
    }
  }

  lemma WorkClosed(v: Work, d: Decoder, c: Cache, o: Outcome, f0: nat, r0: nat)
    requires Numbered(v, f0, r0) && o.batch.Some?
    requires Dense(c, d.functions, d.frames) && MappingOk(d)
    requires c.nextFunction == v.cache.nextFunction && c.nextFrame == v.cache.nextFrame
    requires o.batch.value.frames == v.frames && o.batch.value.callstacks == [StackDef(o.id, v.ids)]
    requires forall j | 0 <= j < |v.ids| :: v.ids[j] < v.cache.nextFrame
    ensures ClosedIn(d, o.batch.value)
  {
  }

  lemma EmitShows(hash: seq<nat> -> nat, c: Cache, v: Work)
    requires Emit(hash, c, v).batch.Some?
    ensures var o := Emit(hash, c, v);
      && o.cache.nextFunction == v.cache.nextFunction && o.cache.nextFrame == v.cache.nextFrame
      && o.batch.value.frames == v.frames && o.batch.value.callstacks == [StackDef(o.id, v.ids)]
  {
  }

  // ------------------------------------------------------------- reading back

  /** A stack as it is handed over: addresses innermost first, each with what
      symbolization returned for it. */
  datatype Call = Call(pid: int, user: seq<nat>, kernel: seq<nat>,
                       userSyms: seq<Option<string>>, kernelSyms: seq<Option<string>>)

  predicate OneSymbolEach(call: Call) {
    |call.userSyms| == |call.user| && |call.kernelSyms| == |call.kernel|
  }

  function UserSites(call: Call): seq<Site> {
    var n := Min(|call.user|, |call.userSyms|);
    seq(n, i requires 0 <= i < n => Site(call.pid, call.user[n - 1 - i], call.userSyms[n - 1 - i]))
  }

  function KernelSites(call: Call): seq<Site> {
    var n := Min(|call.kernel|, |call.kernelSyms|);
    seq(n, i requires 0 <= i < n => Site(KERNEL_PID, call.kernel[i], call.kernelSyms[i]))
  }

  function Sites(call: Call): seq<Site> {
    UserSites(call) + KernelSites(call)
  }

  function AllSites(calls: seq<Call>): seq<seq<Site>> {
    seq(|calls|, i requires 0 <= i < |calls| => Sites(calls[i]))
  }

  function Reverse<T>(s: seq<T>): seq<T> {
    if s == [] then [] else Reverse(s[1..]) + [s[0]]
  }

  lemma {:induction false} ReverseAt<T>(s: seq<T>)
    ensures |Reverse(s)| == |s| && forall k | 0 <= k < |s| :: Reverse(s)[k] == s[|s| - 1 - k]
  {
    if s != [] {
      ReverseAt(s[1..]);
    }
  }

  lemma SitesReversed(call: Call)
    requires OneSymbolEach(call)
    ensures SiteAddresses(Sites(call)) == Reverse(call.user) + call.kernel
  {
    ReverseAt(call.user);
  }

  function Shown(sym: Option<string>): string {
    if sym.Some? then sym.value else UNKNOWN_FUNCTION
  }

  function ShownAll(syms: seq<Option<string>>): seq<string> {
    seq(|syms|, i requires 0 <= i < |syms| => Shown(syms[i]))
  }

  lemma NamesReversed(call: Call)
    requires OneSymbolEach(call)
    ensures SiteNames(Sites(call)) == Reverse(ShownAll(call.userSyms)) + ShownAll(call.kernelSyms)
  {
    ReverseAt(ShownAll(call.userSyms));
  }

  /** Symbolization as a function of process and address, and of address alone
      in the kernel, with no process taking the kernel's pid. */
  predicate SymbolizedBy(calls: seq<Call>, user: (int, nat) -> Option<string>, kernel: nat -> Option<string>) {
    forall i | 0 <= i < |calls| ::
      && OneSymbolEach(calls[i]) && calls[i].pid != KERNEL_PID
      && (forall j | 0 <= j < |calls[i].user| :: calls[i].userSyms[j] == user(calls[i].pid, calls[i].user[j]))
      && (forall j | 0 <= j < |calls[i].kernel| :: calls[i].kernelSyms[j] == kernel(calls[i].kernel[j]))
  }

  lemma OneNameEach(calls: seq<Call>, user: (int, nat) -> Option<string>, kernel: nat -> Option<string>)
    requires SymbolizedBy(calls, user, kernel)
    ensures OneName(AllSites(calls))
  {
    forall s | OccursIn(s, AllSites(calls))
      ensures s.sym == if s.pid == KERNEL_PID then kernel(s.addr) else user(s.pid, s.addr)
    {
      var i :| 0 <= i < |calls| && s in AllSites(calls)[i];
      SiteSymbol(calls[i], s);
    }
  }

  lemma SiteSymbol(call: Call, s: Site)
    requires OneSymbolEach(call) && s in Sites(call)
    ensures (&& s.pid == call.pid
             && exists j :: 0 <= j < |call.user| && s.addr == call.user[j] && s.sym == call.userSyms[j])
      || (s.pid == KERNEL_PID
          && exists j :: 0 <= j < |call.kernel| && s.addr == call.kernel[j] && s.sym == call.kernelSyms[j])
  {
    var n := |call.user|;
    var j :| 0 <= j < |Sites(call)| && Sites(call)[j] == s;
    if j < n {
      assert s.addr == call.user[n - 1 - j];
    } else {
      assert s.addr == call.kernel[j - n];
    }
  }

  /** Replaying all the batches of any run and looking up the id any of its
      calls returned gives that call's user addresses reversed, followed by its
      kernel addresses, each with its own name. */
  lemma StacksReadBack(hash: seq<nat> -> nat, calls: seq<Call>, user: (int, nat) -> Option<string>,
                       kernel: nat -> Option<string>, i: nat)
    requires SymbolizedBy(calls, user, kernel) && i < |calls|
    requires Injective(hash, Run(hash, AllSites(calls)).lists)
    ensures var t := Run(hash, AllSites(calls));
      var d := Replay(t.batches);
      && |t.ids| == |calls| && t.ids[i] in d.stacks && Readable(d, d.stacks[t.ids[i]])
      && Addresses(d, d.stacks[t.ids[i]]) == Reverse(calls[i].user) + calls[i].kernel
      && FunctionNames(d, d.stacks[t.ids[i]])
         == Reverse(ShownAll(calls[i].userSyms)) + ShownAll(calls[i].kernelSyms)
  {
    var ss := AllSites(calls);
    BoundIffInjective(hash, ss);
    FramesDecode(hash, ss, i);
    OneNameEach(calls, user, kernel);
    NamesIff(hash, ss);
    SitesReversed(calls[i]);
    NamesReversed(calls[i]);
  }
}
