/** Callstack interning: an incremental dictionary encoder, and the decoder that
    replays what it emits. */
module Interning {
  import opened Wrappers

  const FAKE_MAPPING_ID: nat := 1
  const KERNEL_PID: int := -1
  const UNKNOWN_FUNCTION: string := "<unknown>"

  type Key = (int, nat)

  /** One address of a stack with what symbolization said about it. */
  datatype Site = Site(pid: int, addr: nat, sym: Option<string>)

  function KeyOf(s: Site): Key {
    (s.pid, s.addr)
  }

  function Display(s: Site): string {
    if s.sym.Some? then s.sym.value else UNKNOWN_FUNCTION
  }

  datatype Named = Named(iid: nat, str: string)
  datatype FrameDef = FrameDef(iid: nat, function_: nat, mapping: nat, relPc: nat)
  datatype StackDef = StackDef(iid: nat, frames: seq<nat>)
  datatype MappingDef = MappingDef(iid: nat, buildId: nat, start: nat, end: nat)

  datatype Batch = Batch(
    functions: seq<Named>, frames: seq<FrameDef>, callstacks: seq<StackDef>,
    mappings: seq<MappingDef>, buildIds: seq<Named>, continuation: bool)

  datatype Cache = Cache(
    nextStack: nat, stacks: map<nat, nat>,
    nextFrame: nat, frames: map<Key, nat>,
    unknown: Option<nat>, nextFunction: nat,
    mapping: Option<nat>, nextMapping: nat,
    first: bool)

  function Fresh(): Cache {
    Cache(0, map[], 0, map[], None, 0, None, 0, true)
  }

  // ---------------------------------------------------------------- encoding

  /** A call in progress: the cache, the frame ids so far, and what is new. */
  datatype Work = Work(cache: Cache, ids: seq<nat>, functions: seq<Named>, frames: seq<FrameDef>)

  function WithUnknown(c: Cache): (r: Cache)
    ensures r.unknown.Some?
  {
    if c.unknown.Some? then c else c.(unknown := Some(c.nextFunction), nextFunction := c.nextFunction + 1)
  }

  function WithMapping(c: Cache): Cache {
    if c.mapping.Some? then c else c.(mapping := Some(FAKE_MAPPING_ID), nextMapping := FAKE_MAPPING_ID + 1)
  }

  function Begin(c: Cache): Work {
    Work(WithMapping(WithUnknown(c)), [],
         if c.unknown.None? then [Named(c.nextFunction, UNKNOWN_FUNCTION)] else [], [])
  }

  function NewMappings(c: Cache): seq<MappingDef> {
    if c.mapping.None? then [MappingDef(FAKE_MAPPING_ID, 1, 0, 0x7fff_ffff_ffff_ffff)] else []
  }

  function NewBuildIds(c: Cache): seq<Named> {
    if c.mapping.None? then [Named(1, "unknown")] else []
  }

  function Visit(w: Work, s: Site): Work {
    var c, key := w.cache, KeyOf(s);
    if key in c.frames then w.(ids := w.ids + [c.frames[key]])
    else
      var id := c.nextFrame;
      var c1 := c.(nextFrame := id + 1, frames := c.frames[key := id]);
      if s.sym.Some? then
        var fn := c1.nextFunction;
        Work(c1.(nextFunction := fn + 1), w.ids + [id], w.functions + [Named(fn, s.sym.value)],
             w.frames + [FrameDef(id, fn, FAKE_MAPPING_ID, s.addr)])
      else
        var c2 := WithUnknown(c1);
        Work(c2, w.ids + [id], w.functions,
             w.frames + [FrameDef(id, c2.unknown.value, FAKE_MAPPING_ID, s.addr)])
  }

  function VisitAll(w: Work, ss: seq<Site>): Work {
    if ss == [] then w else Visit(VisitAll(w, ss[..|ss| - 1]), ss[|ss| - 1])
  }

  datatype Outcome = Outcome(cache: Cache, id: nat, frames: seq<nat>, batch: Option<Batch>)

  function Reserve(c: Cache, h: nat): (r: Cache)
    ensures h in r.stacks
  {
    if h in c.stacks then c else c.(stacks := c.stacks[h := c.nextStack], nextStack := c.nextStack + 1)
  }

  /** One call to `data` on the stack `ss`. */
  function Intern(hash: seq<nat> -> nat, c: Cache, ss: seq<Site>): Outcome {
    Emit(hash, c, VisitAll(Begin(c), ss))
  }

  function Emit(hash: seq<nat> -> nat, c: Cache, w: Work): Outcome {
    var h := hash(w.ids);
    var c1 := Reserve(w.cache, h);
    var id := c1.stacks[h];
    if h !in w.cache.stacks || w.functions != [] || w.frames != [] || NewMappings(c) != [] then
      Outcome(c1.(first := false), id, w.ids,
              Some(Batch(w.functions, w.frames, [StackDef(id, w.ids)], NewMappings(c), NewBuildIds(c), !c1.first)))
    else Outcome(c1, id, w.ids, None)
  }

  // ---------------------------------------------------------------- decoding

  datatype Decoder = Decoder(
    functions: map<nat, string>, frames: map<nat, FrameDef>, stacks: map<nat, seq<nat>>,
    mappings: map<nat, MappingDef>, buildIds: map<nat, string>)

  function Blank(): Decoder {
    Decoder(map[], map[], map[], map[], map[])
  }

  function DefineNames(m: map<nat, string>, ns: seq<Named>): map<nat, string> {
    if ns == [] then m else DefineNames(m, ns[..|ns| - 1])[ns[|ns| - 1].iid := ns[|ns| - 1].str]
  }

  function DefineFrames(m: map<nat, FrameDef>, fs: seq<FrameDef>): map<nat, FrameDef> {
    if fs == [] then m else DefineFrames(m, fs[..|fs| - 1])[fs[|fs| - 1].iid := fs[|fs| - 1]]
  }

  function DefineStacks(m: map<nat, seq<nat>>, ss: seq<StackDef>): map<nat, seq<nat>> {
    if ss == [] then m else DefineStacks(m, ss[..|ss| - 1])[ss[|ss| - 1].iid := ss[|ss| - 1].frames]
  }

  function DefineMappings(m: map<nat, MappingDef>, ms: seq<MappingDef>): map<nat, MappingDef> {
    if ms == [] then m else DefineMappings(m, ms[..|ms| - 1])[ms[|ms| - 1].iid := ms[|ms| - 1]]
  }

  /** A batch that is not a continuation starts from nothing. */
  function Apply(d: Decoder, b: Batch): Decoder {
    var base := if b.continuation then d else Blank();
    Decoder(DefineNames(base.functions, b.functions), DefineFrames(base.frames, b.frames),
            DefineStacks(base.stacks, b.callstacks), DefineMappings(base.mappings, b.mappings),
            DefineNames(base.buildIds, b.buildIds))
  }

  function Replay(bs: seq<Batch>): Decoder {
    if bs == [] then Blank() else Apply(Replay(bs[..|bs| - 1]), bs[|bs| - 1])
  }

  // -------------------------------------------------------------------- runs

  /** Everything a run of calls did: the cache at the end, the batches, and the
      id and frame list of each call. */
  datatype Trace = Trace(cache: Cache, batches: seq<Batch>, ids: seq<nat>, lists: seq<seq<nat>>)

  function Record(t: Trace, o: Outcome): Trace {
    Trace(o.cache, if o.batch.Some? then t.batches + [o.batch.value] else t.batches,
          t.ids + [o.id], t.lists + [o.frames])
  }

  function Run(hash: seq<nat> -> nat, calls: seq<seq<Site>>): Trace {
    if calls == [] then Trace(Fresh(), [], [], [])
    else
      var t := Run(hash, calls[..|calls| - 1]);
      Record(t, Intern(hash, t.cache, calls[|calls| - 1]))
  }

  // ------------------------------------------------------ frames and functions

  /** The first name each address was given. */
  type Names = map<Key, string>

  function Note(names: Names, s: Site): Names {
    if KeyOf(s) in names then names else names[KeyOf(s) := Display(s)]
  }

  function NoteAll(names: Names, ss: seq<Site>): Names {
    if ss == [] then names else Note(NoteAll(names, ss[..|ss| - 1]), ss[|ss| - 1])
  }

  function NamesOf(calls: seq<seq<Site>>): Names {
    if calls == [] then map[] else NoteAll(NamesOf(calls[..|calls| - 1]), calls[|calls| - 1])
  }

  /** Every id below the counters is defined, and nothing else is. */
  ghost predicate Dense(c: Cache, fs: map<nat, string>, rs: map<nat, FrameDef>) {
    && (forall i: nat :: i in fs <==> i < c.nextFunction)
    && (forall i: nat :: i in rs <==> i < c.nextFrame)
  }

  /** A cached address resolves to itself and to the first name it was given. */
  predicate Resolves(c: Cache, fs: map<nat, string>, rs: map<nat, FrameDef>, k: Key, name: string) {
    && k in c.frames && c.frames[k] < c.nextFrame && c.frames[k] in rs
    && var f := rs[c.frames[k]];
    && f.relPc == k.1 && f.mapping == FAKE_MAPPING_ID
    && f.function_ < c.nextFunction && f.function_ in fs && fs[f.function_] == name
  }

  ghost predicate Coded(c: Cache, fs: map<nat, string>, rs: map<nat, FrameDef>, names: Names) {
    && Dense(c, fs, rs)
    && c.frames.Keys == names.Keys
    && (forall k | k in names :: Resolves(c, fs, rs, k, names[k]))
  }

  predicate UnknownSet(c: Cache, fs: map<nat, string>) {
    && c.unknown.Some? && c.unknown.value < c.nextFunction
    && c.unknown.value in fs && fs[c.unknown.value] == UNKNOWN_FUNCTION
  }

  ghost predicate WorkOk(w: Work, d: Decoder, names: Names) {
    var fs, rs := DefineNames(d.functions, w.functions), DefineFrames(d.frames, w.frames);
    Coded(w.cache, fs, rs, names) && UnknownSet(w.cache, fs)
  }

  lemma AddFunction(c: Cache, fs: map<nat, string>, rs: map<nat, FrameDef>, names: Names, name: string)
    requires Coded(c, fs, rs, names) && UnknownSet(c, fs)
    ensures var c', fs' := c.(nextFunction := c.nextFunction + 1), fs[c.nextFunction := name];
      Coded(c', fs', rs, names) && UnknownSet(c', fs')
  {
    var c', fs' := c.(nextFunction := c.nextFunction + 1), fs[c.nextFunction := name];
    forall k | k in names ensures Resolves(c', fs', rs, k, names[k]) {
      assert Resolves(c, fs, rs, k, names[k]);
    }
  }

  lemma AddFrame(c: Cache, fs: map<nat, string>, rs: map<nat, FrameDef>, names: Names, k: Key, fn: nat)
    requires Coded(c, fs, rs, names) && k !in c.frames && fn in fs
    ensures var c' := c.(nextFrame := c.nextFrame + 1, frames := c.frames[k := c.nextFrame]);
      Coded(c', fs, rs[c.nextFrame := FrameDef(c.nextFrame, fn, FAKE_MAPPING_ID, k.1)], names[k := fs[fn]])
  {
    var c' := c.(nextFrame := c.nextFrame + 1, frames := c.frames[k := c.nextFrame]);
    var rs', names' := rs[c.nextFrame := FrameDef(c.nextFrame, fn, FAKE_MAPPING_ID, k.1)], names[k := fs[fn]];
    forall q | q in names' ensures Resolves(c', fs, rs', q, names'[q]) {
      if q != k {
        assert Resolves(c, fs, rs, q, names[q]);
      }
    }
  }

  lemma VisitOk(w: Work, s: Site, d: Decoder, names: Names)
    requires WorkOk(w, d, names)
    ensures WorkOk(Visit(w, s), d, Note(names, s))
  {
    hide WorkOk;
    WorkKeys(w, d, names);
    if KeyOf(s) !in w.cache.frames {
      if s.sym.Some? {
        VisitNamed(w, s, d, names);
      } else {
        VisitUnnamed(w, s, d, names);
      }
    } else {
      WorkIds(w, d, names, Visit(w, s).ids);
    }
  }

  lemma VisitNamed(w: Work, s: Site, d: Decoder, names: Names)
    requires WorkOk(w, d, names) && KeyOf(s) !in w.cache.frames && s.sym.Some?
    ensures WorkOk(Visit(w, s), d, names[KeyOf(s) := Display(s)])
  {
    hide Coded;
    var c, v := w.cache, Visit(w, s);
    var fs, rs := DefineNames(d.functions, w.functions), DefineFrames(d.frames, w.frames);
    assert v.frames[..|v.frames| - 1] == w.frames;
    assert v.functions[..|v.functions| - 1] == w.functions;
    AddFunction(c, fs, rs, names, s.sym.value);
    AddFrame(c.(nextFunction := c.nextFunction + 1), fs[c.nextFunction := s.sym.value], rs, names, KeyOf(s),
             c.nextFunction);
  }

  lemma VisitUnnamed(w: Work, s: Site, d: Decoder, names: Names)
    requires WorkOk(w, d, names) && KeyOf(s) !in w.cache.frames && s.sym.None?
    ensures WorkOk(Visit(w, s), d, names[KeyOf(s) := Display(s)])
  {
    hide Coded;
    var v := Visit(w, s);
    assert v.frames[..|v.frames| - 1] == w.frames;
    AddFrame(w.cache, DefineNames(d.functions, w.functions), DefineFrames(d.frames, w.frames), names, KeyOf(s),
             w.cache.unknown.value);
  }

  lemma WorkIds(w: Work, d: Decoder, names: Names, ids: seq<nat>)
    requires WorkOk(w, d, names)
    ensures WorkOk(w.(ids := ids), d, names)
  {
  }

  lemma WorkKeys(w: Work, d: Decoder, names: Names)
    requires WorkOk(w, d, names)
    ensures forall k :: k in w.cache.frames <==> k in names
  {
  }

  /** The ids of a call are the cached ids of its addresses. */
  predicate IdsOk(ids: seq<nat>, frames: map<Key, nat>, ss: seq<Site>) {
    |ids| == |ss| && forall j | 0 <= j < |ss| :: KeyOf(ss[j]) in frames && ids[j] == frames[KeyOf(ss[j])]
  }

  predicate Grows(a: map<Key, nat>, b: map<Key, nat>) {
    forall k | k in a :: k in b && b[k] == a[k]
  }

  /** What a call leaves alone, and how it shows that it met a new address. */
  predicate Kept(w: Work, v: Work) {
    && v.cache.stacks == w.cache.stacks && v.cache.nextStack == w.cache.nextStack
    && v.cache.mapping == w.cache.mapping && v.cache.first == w.cache.first
    && Grows(w.cache.frames, v.cache.frames)
    && w.cache.nextFrame <= v.cache.nextFrame && w.cache.nextFunction <= v.cache.nextFunction
    && w.functions <= v.functions && w.frames <= v.frames
    && |v.frames| - |w.frames| == v.cache.nextFrame - w.cache.nextFrame
    && (v.frames == w.frames ==> v.functions == w.functions)
    && (v.frames != w.frames ==> exists j :: 0 <= j < |v.ids| && v.ids[j] >= w.cache.nextFrame)
  }

  lemma {:induction false} VisitAllOk(w: Work, ss: seq<Site>, d: Decoder, names: Names)
    requires WorkOk(w, d, names) && w.ids == []
    ensures var v := VisitAll(w, ss);
      WorkOk(v, d, NoteAll(names, ss)) && Kept(w, v) && IdsOk(v.ids, v.cache.frames, ss)
  {
    hide WorkOk;
    if ss != [] {
      var init, s := ss[..|ss| - 1], ss[|ss| - 1];
      VisitAllOk(w, init, d, names);
      assert init + [s] == ss;
      VisitOk(VisitAll(w, init), s, d, NoteAll(names, init));
      VisitKeeps(w, VisitAll(w, init), s, d, NoteAll(names, init));
    }
  }

  lemma VisitKeeps(w: Work, u: Work, s: Site, d: Decoder, names: Names)
    requires Kept(w, u) && WorkOk(u, d, names)
    ensures Kept(w, Visit(u, s)) && Grows(u.cache.frames, Visit(u, s).cache.frames)
    ensures var v := Visit(u, s);
      KeyOf(s) in v.cache.frames && v.ids == u.ids + [v.cache.frames[KeyOf(s)]]
  {
    assert u.cache.unknown.Some?;
    hide WorkOk, Visit;
    VisitShape(u, s);
    if KeyOf(s) !in u.cache.frames {
      NewKept(w, u, Visit(u, s), KeyOf(s));
    } else {
      KnownKept(w, u, Visit(u, s));
    }
  }

  /** A visit of a new address: one more frame under the next id. */
  predicate OneMore(u: Work, v: Work, k: Key) {
    && v.cache == u.cache.(nextFrame := u.cache.nextFrame + 1, frames := u.cache.frames[k := u.cache.nextFrame],
                           nextFunction := v.cache.nextFunction)
    && u.cache.nextFunction <= v.cache.nextFunction && u.functions <= v.functions
    && u.frames <= v.frames && |v.frames| == |u.frames| + 1
    && v.ids == u.ids + [u.cache.nextFrame]
  }

  lemma VisitShape(u: Work, s: Site)
    requires u.cache.unknown.Some?
    ensures var v := Visit(u, s);
      if KeyOf(s) in u.cache.frames then v == u.(ids := u.ids + [u.cache.frames[KeyOf(s)]])
      else OneMore(u, v, KeyOf(s))
  {
  }

  lemma KnownKept(w: Work, u: Work, v: Work)
    requires Kept(w, u) && v == u.(ids := v.ids) && u.ids <= v.ids
    ensures Kept(w, v) && Grows(u.cache.frames, v.cache.frames)
  {
    assert forall j | 0 <= j < |u.ids| :: v.ids[j] == u.ids[j];
  }

  lemma NewKept(w: Work, u: Work, v: Work, k: Key)
    requires Kept(w, u) && OneMore(u, v, k) && k !in u.cache.frames
    ensures Kept(w, v) && Grows(u.cache.frames, v.cache.frames)
  {
    assert v.ids[|u.ids|] == u.cache.nextFrame;
    assert w.frames <= u.frames <= v.frames;
  }

  // ------------------------------------------------------------ the invariant

  /** Callstack ids: one per hash, each bound to some list seen with that hash. */
  ghost predicate StacksOk(hash: seq<nat> -> nat, c: Cache, ds: map<nat, seq<nat>>, ids: seq<nat>,
                           lists: seq<seq<nat>>)
  {
    && |ids| == |lists|
    && (forall i | 0 <= i < |lists| :: hash(lists[i]) in c.stacks && c.stacks[hash(lists[i])] == ids[i])
    && (forall h | h in c.stacks :: Bound(hash, c, ds, lists, h))
    && (forall i: nat :: i in ds <==> i < c.nextStack)
  }

  predicate Bound(hash: seq<nat> -> nat, c: Cache, ds: map<nat, seq<nat>>, lists: seq<seq<nat>>, h: nat)
    requires h in c.stacks
  {
    var id := c.stacks[h];
    id < c.nextStack && id in ds && ds[id] in lists && hash(ds[id]) == h
  }

  /** The mapping and build id every frame refers to. */
  predicate MappingOk(d: Decoder) {
    FAKE_MAPPING_ID in d.mappings && d.mappings[FAKE_MAPPING_ID].buildId in d.buildIds
  }

  predicate ListsOk(frames: map<Key, nat>, lists: seq<seq<nat>>, calls: seq<seq<Site>>) {
    |lists| == |calls| && forall i | 0 <= i < |lists| :: IdsOk(lists[i], frames, calls[i])
  }

  predicate Started(c: Cache, d: Decoder) {
    c.mapping.Some? && !c.first && UnknownSet(c, d.functions) && MappingOk(d)
  }

  ghost predicate Agrees(hash: seq<nat> -> nat, t: Trace, d: Decoder, calls: seq<seq<Site>>) {
    && Coded(t.cache, d.functions, d.frames, NamesOf(calls))
    && StacksOk(hash, t.cache, d.stacks, t.ids, t.lists)
    && ListsOk(t.cache.frames, t.lists, calls)
    && (if calls == [] then t.cache == Fresh() && d == Blank() else Started(t.cache, d))
  }

  /** The cache at any point of a run and a decoder that has replayed every
      batch so far always agree. */
  lemma {:induction false} RunAgrees(hash: seq<nat> -> nat, calls: seq<seq<Site>>)
    ensures Agrees(hash, Run(hash, calls), Replay(Run(hash, calls).batches), calls)
    decreases |calls|
  {
    hide Agrees, Intern, Replay, Record;
    if calls == [] {
      NothingAgrees(hash);
    } else {
      var init, ss := calls[..|calls| - 1], calls[|calls| - 1];
      var t := Run(hash, init);
      RunAgrees(hash, init);
      CallAgrees(hash, t, Replay(t.batches), init, ss);
      ReplayRecord(t, Intern(hash, t.cache, ss));
      assert init + [ss] == calls;
    }
  }

  lemma ReplayRecord(t: Trace, o: Outcome)
    ensures Replay(Record(t, o).batches) == After(Replay(t.batches), o.batch)
  {
    hide Apply;
    if o.batch.Some? {
      assert (t.batches + [o.batch.value])[..|t.batches|] == t.batches;
    }
  }

  lemma NothingAgrees(hash: seq<nat> -> nat)
    ensures Agrees(hash, Trace(Fresh(), [], [], []), Replay([]), [])
  {
  }

  lemma BeginOk(c: Cache, d: Decoder, names: Names)
    requires Coded(c, d.functions, d.frames, names)
    requires (c == Fresh() && d == Blank()) || Started(c, d)
    ensures WorkOk(Begin(c), d, names)
    ensures Begin(c).cache.stacks == c.stacks && Begin(c).cache.nextStack == c.nextStack
    ensures Begin(c).cache.frames == c.frames && Begin(c).cache.nextFrame == c.nextFrame
    ensures Begin(c).cache.first == c.first && Begin(c).frames == []
    ensures c.first <==> Begin(c).functions != []
    ensures Begin(c).cache.mapping.Some? && (c.first <==> NewMappings(c) != [])
  {
    var w := Begin(c);
    if c.unknown.None? {
      assert w.functions[..0] == [];
      assert DefineNames(d.functions, w.functions) == map[0 := UNKNOWN_FUNCTION];
    }
  }

  function After(d: Decoder, b: Option<Batch>): Decoder {
    if b.Some? then Apply(d, b.value) else d
  }

  /** A batch only adds: the one that resets finds a decoder that is blank. */
  lemma AfterAdds(d: Decoder, o: Outcome, w: Work, c: Cache, hash: seq<nat> -> nat)
    requires o == Emit(hash, c, w) && (w.cache.first ==> d == Blank())
    ensures var e := After(d, o.batch);
      && e.functions == DefineNames(d.functions, w.functions)
      && e.frames == DefineFrames(d.frames, w.frames)
      && e.stacks == (if o.batch.Some? then d.stacks[o.id := w.ids] else d.stacks)
      && e.mappings == DefineMappings(d.mappings, NewMappings(c))
      && e.buildIds == DefineNames(d.buildIds, NewBuildIds(c))
  {
    if o.batch.Some? {
      var b := o.batch.value;
      assert b.callstacks[..0] == [];
      assert DefineStacks(d.stacks, b.callstacks) == d.stacks[o.id := w.ids];
      assert Apply(d, b) == Apply(d, b.(continuation := true));
    }
  }

  lemma CallAgrees(hash: seq<nat> -> nat, t: Trace, d: Decoder, calls: seq<seq<Site>>, ss: seq<Site>)
    requires Agrees(hash, t, d, calls)
    ensures var o := Intern(hash, t.cache, ss);
      Agrees(hash, Record(t, o), After(d, o.batch), calls + [ss])
  {
    hide WorkOk, Coded, StacksOk, ListsOk, Kept, UnknownSet, MappingOk;
    hide DefineNames, DefineFrames, DefineMappings, VisitAll;
    var c, names := t.cache, NamesOf(calls);
    var o, w, v := Intern(hash, c, ss), Begin(c), VisitAll(Begin(c), ss);
    var e := After(d, o.batch);
    BeginOk(c, d, names);
    VisitAllOk(w, ss, d, names);
    KeptParts(w, v);
    EmitParts(hash, c, v);
    AfterAdds(d, o, v, c, hash);
    NamesOfMore(calls, ss);
    CodedAfter(hash, c, v, d, NoteAll(names, ss));
    ListsGrow(c.frames, o.cache.frames, t.lists, calls, v.ids, ss);
    StacksAfter(hash, t, v, d.stacks, c, o);
    MappingAfter(c, d, e);
  }

  lemma KeptParts(w: Work, v: Work)
    requires Kept(w, v)
    ensures v.cache.stacks == w.cache.stacks && v.cache.nextStack == w.cache.nextStack
    ensures v.cache.mapping == w.cache.mapping && v.cache.first == w.cache.first
    ensures Grows(w.cache.frames, v.cache.frames)
    ensures w.functions != [] ==> v.functions != []
  {
  }

  lemma EmitParts(hash: seq<nat> -> nat, c: Cache, v: Work)
    ensures var o := Emit(hash, c, v);
      && o.frames == v.ids && o.cache.frames == v.cache.frames && o.cache.mapping == v.cache.mapping
      && (o.cache.first ==> v.cache.first && v.functions == [])
  {
  }

  lemma NamesOfMore(calls: seq<seq<Site>>, ss: seq<Site>)
    ensures NamesOf(calls + [ss]) == NoteAll(NamesOf(calls), ss)
  {
    assert (calls + [ss])[..|calls|] == calls;
  }

  lemma CodedAfter(hash: seq<nat> -> nat, c: Cache, v: Work, d: Decoder, names: Names)
    requires WorkOk(v, d, names)
    ensures var o := Emit(hash, c, v);
      var fs, rs := DefineNames(d.functions, v.functions), DefineFrames(d.frames, v.frames);
      Coded(o.cache, fs, rs, names) && UnknownSet(o.cache, fs)
  {
    var o := Emit(hash, c, v);
    var fs, rs := DefineNames(d.functions, v.functions), DefineFrames(d.frames, v.frames);
    forall k | k in names ensures Resolves(o.cache, fs, rs, k, names[k]) {
      assert Resolves(v.cache, fs, rs, k, names[k]);
    }
  }

  lemma ListsGrow(a: map<Key, nat>, b: map<Key, nat>, lists: seq<seq<nat>>, calls: seq<seq<Site>>,
                  ids: seq<nat>, ss: seq<Site>)
    requires ListsOk(a, lists, calls) && Grows(a, b) && IdsOk(ids, b, ss)
    ensures ListsOk(b, lists + [ids], calls + [ss])
  {
    forall i | 0 <= i < |lists| + 1 ensures IdsOk((lists + [ids])[i], b, (calls + [ss])[i]) {
      if i < |lists| {
        assert IdsOk(lists[i], a, calls[i]);
      }
    }
  }

  lemma StacksAfter(hash: seq<nat> -> nat, t: Trace, v: Work, ds: map<nat, seq<nat>>, c: Cache, o: Outcome)
    requires StacksOk(hash, t.cache, ds, t.ids, t.lists)
    requires v.cache.stacks == t.cache.stacks && v.cache.nextStack == t.cache.nextStack && o == Emit(hash, c, v)
    ensures StacksOk(hash, o.cache, if o.batch.Some? then ds[o.id := v.ids] else ds, t.ids + [o.id], t.lists + [v.ids])
  {
    var c', id := Reserve(t.cache, hash(v.ids)), o.id;
    assert o.cache.stacks == c'.stacks && o.cache.nextStack == c'.nextStack && id == c'.stacks[hash(v.ids)];
    assert hash(v.ids) !in t.cache.stacks ==> o.batch.Some?;
    var emitted := o.batch.Some?;
    hide Emit;
    ReserveBound(hash, t, ds, v.ids, emitted);
    var ds', lists' := if emitted then ds[id := v.ids] else ds, t.lists + [v.ids];
    forall h | h in o.cache.stacks ensures Bound(hash, o.cache, ds', lists', h) {
      assert Bound(hash, c', ds', lists', h);
    }
  }

  lemma ReserveBound(hash: seq<nat> -> nat, t: Trace, ds: map<nat, seq<nat>>, l: seq<nat>, emitted: bool)
    requires StacksOk(hash, t.cache, ds, t.ids, t.lists) && (hash(l) !in t.cache.stacks ==> emitted)
    ensures var c' := Reserve(t.cache, hash(l));
      StacksOk(hash, c', if emitted then ds[c'.stacks[hash(l)] := l] else ds,
               t.ids + [c'.stacks[hash(l)]], t.lists + [l])
  {
    var c', lists' := Reserve(t.cache, hash(l)), t.lists + [l];
    var id := c'.stacks[hash(l)];
    var ds' := if emitted then ds[id := l] else ds;
    assert lists'[|t.lists|] == l;
    assert hash(l) in t.cache.stacks ==> Bound(hash, t.cache, ds, t.lists, hash(l));
    forall h | h in c'.stacks ensures Bound(hash, c', ds', lists', h) {
      if h in t.cache.stacks {
        assert Bound(hash, t.cache, ds, t.lists, h);
        assert ds[t.cache.stacks[h]] in lists';
      }
    }
    forall i | 0 <= i < |t.lists| ensures lists'[i] == t.lists[i] {
    }
  }

  lemma MappingAfter(c: Cache, d: Decoder, e: Decoder)
    requires c == Fresh() || MappingOk(d)
    requires c.mapping.None? ==> c == Fresh()
    requires e.mappings == DefineMappings(d.mappings, NewMappings(c))
    requires e.buildIds == DefineNames(d.buildIds, NewBuildIds(c))
    ensures MappingOk(e)
  {
    if c.mapping.None? {
      assert NewMappings(c)[..0] == [] && NewBuildIds(c)[..0] == [];
    }
  }

  // ---------------------------------------------------------------- theorems

  /** No two frame lists seen share a hash. */
  predicate Injective(hash: seq<nat> -> nat, lists: seq<seq<nat>>) {
    forall i, j | 0 <= i < |lists| && 0 <= j < |lists| :: hash(lists[i]) == hash(lists[j]) ==> lists[i] == lists[j]
  }

  /** After any run every call's id is bound to that call's own frame list, if
      and only if the hash told all the frame lists of the run apart. */
  lemma BoundIffInjective(hash: seq<nat> -> nat, calls: seq<seq<Site>>)
    ensures var t, d := Run(hash, calls), Replay(Run(hash, calls).batches);
      && |t.ids| == |t.lists| == |calls|
      && ((forall i | 0 <= i < |calls| :: t.ids[i] in d.stacks && d.stacks[t.ids[i]] == t.lists[i])
          <==> Injective(hash, t.lists))
  {
    RunAgrees(hash, calls);
    var t := Run(hash, calls);
    var d := Replay(t.batches);
    forall i | 0 <= i < |calls| ensures Bound(hash, t.cache, d.stacks, t.lists, hash(t.lists[i])) {
    }
    if Injective(hash, t.lists) {
      forall i | 0 <= i < |calls| ensures t.ids[i] in d.stacks && d.stacks[t.ids[i]] == t.lists[i] {
        assert Bound(hash, t.cache, d.stacks, t.lists, hash(t.lists[i]));
        var k :| 0 <= k < |t.lists| && t.lists[k] == d.stacks[t.ids[i]];
      }
    }
  }

  /** The addresses and names a decoder reads off a list of frame ids. */
  predicate Readable(d: Decoder, frames: seq<nat>) {
    forall j | 0 <= j < |frames| ::
      && frames[j] in d.frames && d.frames[frames[j]].function_ in d.functions
      && d.frames[frames[j]].mapping in d.mappings
      && d.mappings[d.frames[frames[j]].mapping].buildId in d.buildIds
  }

  function Addresses(d: Decoder, frames: seq<nat>): seq<nat>
    requires Readable(d, frames)
  {
    seq(|frames|, j requires 0 <= j < |frames| => d.frames[frames[j]].relPc)
  }

  function FunctionNames(d: Decoder, frames: seq<nat>): seq<string>
    requires Readable(d, frames)
  {
    seq(|frames|, j requires 0 <= j < |frames| => d.functions[d.frames[frames[j]].function_])
  }

  function SiteAddresses(ss: seq<Site>): seq<nat> {
    seq(|ss|, j requires 0 <= j < |ss| => ss[j].addr)
  }

  function SiteNames(ss: seq<Site>): seq<string> {
    seq(|ss|, j requires 0 <= j < |ss| => Display(ss[j]))
  }

  /** Whatever the hash does, the frame list of every call so far can be read in
      full from the batches so far, and gives the call's own addresses. */
  lemma FramesDecode(hash: seq<nat> -> nat, calls: seq<seq<Site>>, i: nat)
    requires i < |calls|
    ensures var t, d := Run(hash, calls), Replay(Run(hash, calls).batches);
      && |t.lists| == |calls| && Readable(d, t.lists[i])
      && Addresses(d, t.lists[i]) == SiteAddresses(calls[i])
      && (forall j | 0 <= j < |calls[i]| :: KeyOf(calls[i][j]) in NamesOf(calls))
      && FunctionNames(d, t.lists[i])
         == seq(|calls[i]|, j requires 0 <= j < |calls[i]| => NamesOf(calls)[KeyOf(calls[i][j])])
  {
    RunAgrees(hash, calls);
    var t := Run(hash, calls);
    var d := Replay(t.batches);
    hide Run, Replay, NamesOf;
    assert IdsOk(t.lists[i], t.cache.frames, calls[i]);
    forall j | 0 <= j < |calls[i]| ensures
      Resolves(t.cache, d.functions, d.frames, KeyOf(calls[i][j]), NamesOf(calls)[KeyOf(calls[i][j])]) {
    }
  }

  /** Wherever an address occurs in a run, symbolization names it alike. */
  ghost predicate OneName(calls: seq<seq<Site>>) {
    forall a, b | OccursIn(a, calls) && OccursIn(b, calls) && KeyOf(a) == KeyOf(b) :: Display(a) == Display(b)
  }

  predicate OccursIn(s: Site, calls: seq<seq<Site>>) {
    exists i :: 0 <= i < |calls| && s in calls[i]
  }

  lemma {:induction false} NoteAllFirst(names: Names, ss: seq<Site>, k: Key)
    requires k in NoteAll(names, ss)
    ensures (k in names && NoteAll(names, ss)[k] == names[k])
      || exists s :: s in ss && KeyOf(s) == k && NoteAll(names, ss)[k] == Display(s)
    decreases |ss|
  {
    if ss != [] {
      var init := ss[..|ss| - 1];
      if k in NoteAll(names, init) {
        NoteAllFirst(names, init, k);
      } else {
        assert KeyOf(ss[|ss| - 1]) == k;
      }
    }
  }

  lemma {:induction false} NameOccurs(calls: seq<seq<Site>>, k: Key)
    requires k in NamesOf(calls)
    ensures exists s :: OccursIn(s, calls) && KeyOf(s) == k && NamesOf(calls)[k] == Display(s)
    decreases |calls|
  {
    var init, ss := calls[..|calls| - 1], calls[|calls| - 1];
    NoteAllFirst(NamesOf(init), ss, k);
    if k in NamesOf(init) && NamesOf(calls)[k] == NamesOf(init)[k] {
      NameOccurs(init, k);
      var s :| OccursIn(s, init) && KeyOf(s) == k && NamesOf(init)[k] == Display(s);
      var i :| 0 <= i < |init| && s in init[i];
      assert s in calls[i];
    } else {
      var s :| s in ss && KeyOf(s) == k && NamesOf(calls)[k] == Display(s);
      assert s in calls[|calls| - 1];
    }
  }

  /** Every call's frame list reads back the names of its own addresses, if and
      only if no address of the run was given two different names. */
  lemma NamesIff(hash: seq<nat> -> nat, calls: seq<seq<Site>>)
    ensures var t, d := Run(hash, calls), Replay(Run(hash, calls).batches);
      && |t.lists| == |calls|
      && (forall i | 0 <= i < |calls| :: Readable(d, t.lists[i]))
      && ((forall i | 0 <= i < |calls| :: FunctionNames(d, t.lists[i]) == SiteNames(calls[i])) <==> OneName(calls))
  {
    RunAgrees(hash, calls);
    var t := Run(hash, calls);
    var d := Replay(t.batches);
    forall i | 0 <= i < |calls|
      ensures Readable(d, t.lists[i])
      ensures forall j | 0 <= j < |calls[i]| :: KeyOf(calls[i][j]) in NamesOf(calls)
      ensures FunctionNames(d, t.lists[i]) == SiteNames(calls[i])
        <==> forall j | 0 <= j < |calls[i]| :: NamesOf(calls)[KeyOf(calls[i][j])] == Display(calls[i][j])
    {
      FramesDecode(hash, calls, i);
      NamesOfCall(calls, i, FunctionNames(d, t.lists[i]));
    }
    if OneName(calls) {
      forall i, j | 0 <= i < |calls| && 0 <= j < |calls[i]|
        ensures NamesOf(calls)[KeyOf(calls[i][j])] == Display(calls[i][j])
      {
        NameOccurs(calls, KeyOf(calls[i][j]));
        assert OccursIn(calls[i][j], calls) by { assert calls[i][j] in calls[i]; }
      }
    }
    if forall i | 0 <= i < |calls| :: FunctionNames(d, t.lists[i]) == SiteNames(calls[i]) {
      forall s | OccursIn(s, calls) ensures KeyOf(s) in NamesOf(calls) && NamesOf(calls)[KeyOf(s)] == Display(s) {
        var i :| 0 <= i < |calls| && s in calls[i];
        var j :| 0 <= j < |calls[i]| && calls[i][j] == s;
        assert FunctionNames(d, t.lists[i]) == SiteNames(calls[i]);
      }
    }
  }

  lemma NamesOfCall(calls: seq<seq<Site>>, i: nat, fns: seq<string>)
    requires i < |calls| && forall j | 0 <= j < |calls[i]| :: KeyOf(calls[i][j]) in NamesOf(calls)
    requires fns == seq(|calls[i]|, j requires 0 <= j < |calls[i]| => NamesOf(calls)[KeyOf(calls[i][j])])
    ensures fns == SiteNames(calls[i])
      <==> forall j | 0 <= j < |calls[i]| :: NamesOf(calls)[KeyOf(calls[i][j])] == Display(calls[i][j])
  {
    if fns == SiteNames(calls[i]) {
      forall j | 0 <= j < |calls[i]| ensures NamesOf(calls)[KeyOf(calls[i][j])] == Display(calls[i][j]) {
        assert fns[j] == SiteNames(calls[i])[j];
      }
    }
  }

  // ------------------------------------------------------- where the promises fail

  /** A hash that separates nothing: two different stacks share one id, and
      looking it up gives one of them the other's frames. */
  lemma HashClashExample()
    ensures var hash := (l: seq<nat>) => 0;
      var calls := [[Site(1, 10, None)], [Site(1, 20, None)]];
      var t, d := Run(hash, calls), Replay(Run(hash, calls).batches);
      && |t.ids| == |t.lists| == 2 && t.ids[0] == t.ids[1] && t.ids[0] in d.stacks && t.lists[0] != t.lists[1]
      && (d.stacks[t.ids[0]] != t.lists[0] || d.stacks[t.ids[1]] != t.lists[1])
  {
    hide Run, Replay, NamesOf;
    var hash := (l: seq<nat>) => 0;
    var calls := [[Site(1, 10, None)], [Site(1, 20, None)]];
    RunAgrees(hash, calls);
    FramesDecode(hash, calls, 0);
    FramesDecode(hash, calls, 1);
    var t, d := Run(hash, calls), Replay(Run(hash, calls).batches);
    assert Addresses(d, t.lists[0])[0] == 10 by { assert SiteAddresses(calls[0])[0] == 10; }
    assert Addresses(d, t.lists[1])[0] == 20 by { assert SiteAddresses(calls[1])[0] == 20; }
    assert hash(t.lists[0]) in t.cache.stacks && Bound(hash, t.cache, d.stacks, t.lists, 0);
  }

  /** An address seen twice: the second call reads back the first name. */
  lemma FirstNameStays(hash: seq<nat> -> nat, a: Site, b: Site)
    requires KeyOf(a) == KeyOf(b)
    ensures var t, d := Run(hash, [[a], [b]]), Replay(Run(hash, [[a], [b]]).batches);
      && |t.lists| == 2 && Readable(d, t.lists[1])
      && FunctionNames(d, t.lists[1]) == [Display(a)] && SiteNames([b]) == [Display(b)]
  {
    hide Run, Replay, NamesOf, NoteAll, Display;
    var calls := [[a], [b]];
    FramesDecode(hash, calls, 1);
    NamesOfMore([], [a]);
    NamesOfMore([[a]], [b]);
    assert [] + [[a]] == [[a]] && [[a]] + [[b]] == calls;
    NoteOne(NamesOf([]), a);
    NoteOne(NamesOf([[a]]), b);
    NoNames();
  }

  /** One address given two names. */
  lemma TwoNamesExample(hash: seq<nat> -> nat)
    ensures var calls := [[Site(1, 10, Some("f"))], [Site(1, 10, Some("g"))]];
      var t, d := Run(hash, calls), Replay(Run(hash, calls).batches);
      && |t.lists| == 2 && Readable(d, t.lists[1])
      && FunctionNames(d, t.lists[1]) == ["f"] && SiteNames(calls[1]) == ["g"]
  {
    hide Run, Replay, FunctionNames, SiteNames, Readable;
    FirstNameStays(hash, Site(1, 10, Some("f")), Site(1, 10, Some("g")));
  }

  lemma NoteOne(names: Names, s: Site)
    ensures NoteAll(names, [s]) == Note(names, s)
  {
    assert [s][..0] == [];
  }

  lemma NoNames()
    ensures NamesOf([]) == map[]
  {
  }
}
