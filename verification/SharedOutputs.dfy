/** Exactly when the cache is transparent: when no two requests that may be
    under way together can clash. An output file is read back from disk, or
    handed to the client, some steps after it was written, and a clash is what
    can happen in between. */
module SharedOutputs {
  import opened CompilerArguments
  import opened Options
  import opened Octets
  import opened CachedCompile
  import opened CacheTransparency
  import opened Assumptions

  // ----- Building runs -----

  ghost predicate Reaches(tc: Toolchain, policy: Policy, w: World, events: seq<Event>, w': World)
    requires Produces(tc)
  {
    IsRun(tc, w, events) && AdmissibleRun(tc, policy, w, events) && Run(tc, w, events) == w'
  }

  lemma {:induction false} OneStep(tc: Toolchain, policy: Policy, w: World, e: Event)
    requires Produces(tc) && Enabled(tc, w, e) && Admissible(tc, policy, w, e)
    ensures Reaches(tc, policy, w, [e], Step(tc, w, e))
  {
    assert [e][1..] == [];
  }

  lemma {:induction false} Further(tc: Toolchain, policy: Policy, w: World, a: seq<Event>, w': World,
                                   b: seq<Event>, w'': World)
    requires Produces(tc) && Reaches(tc, policy, w, a, w') && Reaches(tc, policy, w', b, w'')
    ensures Reaches(tc, policy, w, a + b, w'')
    ensures TransparentThroughout(tc, w, a + b) ==> TransparentThroughout(tc, w', b)
    decreases |a|
  {
    if a == [] {
      assert a + b == b;
    } else {
      assert (a + b)[1..] == a[1..] + b;
      Further(tc, policy, Step(tc, w, a[0]), a[1..], w', b, w'');
    }
  }

  /** A request moves to a phase; nothing else changes but files. */
  predicate Moves(w: World, id: Id, phase: Phase, w': World)
    requires id in w.tasks
  {
    w'.tasks == w.tasks[id := w.tasks[id].(phase := phase)] && w'.store == w.store && w'.puts == w.puts
  }

  /** What happens without the storage. */
  /** Steps of one request in between its lookup, the compiler's exit and the
      end. */
  predicate Quiet(events: seq<Event>, id: Id) {
    forall e :: e in events ==> OfRequest(e) && e.id == id && !e.LookedUp? && !e.Exit?
  }

  predicate Offline(events: seq<Event>) { forall e :: e in events ==> !TouchesStore(e) }

  // ----- One request at a time -----

  function Miss(r: Request): MissType { if r.control == ForceRecache then ForcedRecache else Normal }

  /** A request about to unpack what the store has, or to run the compiler. */
  function Ready(tc: Toolchain, w: World, r: Request, pre: Bytes, hit: bool): Phase
    requires hit ==> KeyOf(tc, r, pre) in w.store
  {
    if hit then Unpacking(pre, w.store[KeyOf(tc, r, pre)], NOTHING_YET) else Compiling(pre, Miss(r), NOTHING_YET)
  }

  lemma {:induction false} Readies(tc: Toolchain, policy: Policy, w: World, id: Id, pre: Bytes, hit: bool)
    returns (events: seq<Event>)
    requires Produces(tc) && id in w.tasks && w.tasks[id].phase == Preprocessing && tc.arises(w.tasks[id].request, pre)
    requires hit ==> w.tasks[id].request.control == Default && KeyOf(tc, w.tasks[id].request, pre) in w.store
    ensures Reaches(tc, policy, w, events, To(w, id, Ready(tc, w, w.tasks[id].request, pre, hit)))
  {
    var r := w.tasks[id].request;
    var e := Preprocessed(id, Output(Some(0), pre, []));
    var w' := Step(tc, w, e);
    OneStep(tc, policy, w, e);
    if r.control == ForceRecache {
      events := [e];
    } else {
      var lookup := LookedUp(id, if hit then Found else NotFound);
      var w'' := Step(tc, w', lookup);
      OneStep(tc, policy, w', lookup);
      Further(tc, policy, w, [e], w', [lookup], w'');
      events := [e] + [lookup];
      assert w''.tasks == To(w, id, Ready(tc, w, r, pre, hit)).tasks;
    }
  }

  lemma {:induction false} StartsReady(tc: Toolchain, policy: Policy, w: World, id: Id, r: Request, pre: Bytes,
                                       hit: bool)
    returns (events: seq<Event>)
    requires Produces(tc) && id !in w.tasks && Admissible(tc, policy, w, Start(id, r)) && tc.arises(r, pre)
    requires hit ==> r.control == Default && KeyOf(tc, r, pre) in w.store
    ensures Reaches(tc, policy, w, events, w.(tasks := w.tasks[id := Task(r, Ready(tc, w, r, pre, hit))]))
  {
    var w' := Step(tc, w, Start(id, r));
    OneStep(tc, policy, w, Start(id, r));
    var ready := Readies(tc, policy, w', id, pre, hit);
    var w'' := To(w', id, Ready(tc, w', r, pre, hit));
    Further(tc, policy, w, [Start(id, r)], w', ready, w'');
    events := [Start(id, r)] + ready;
    assert w''.tasks == w.tasks[id := Task(r, Ready(tc, w, r, pre, hit))];
  }

  /** The compiler writes one output. */
  lemma {:induction false} WritesOne(tc: Toolchain, policy: Policy, w: World, id: Id, name: string)
    returns (w': World)
    requires Produces(tc) && id in w.tasks && w.tasks[id].phase.Compiling? && w.tasks[id].phase.progress.open == None
    requires Left(w.files, w.tasks[id].request, tc.run(w.tasks[id].request, w.tasks[id].phase.pre).files,
                  w.tasks[id].phase.progress)
    requires name in tc.run(w.tasks[id].request, w.tasks[id].phase.pre).files
    requires name !in w.tasks[id].phase.progress.done
    ensures
      var r, phase := w.tasks[id].request, w.tasks[id].phase;
      var content := tc.run(r, phase.pre).files;
      && Reaches(tc, policy, w, [Write(id, name)], w')
      && Moves(w, id, Compiling(phase.pre, phase.missType, phase.progress.Written(name)), w')
      && w'.files == w.files[r.PathOf(name) := content[name]]
      && Left(w'.files, r, content, phase.progress.Written(name))
  {
    var r, phase := w.tasks[id].request, w.tasks[id].phase;
    OneStep(tc, policy, w, Write(id, name));
    LeftAfterWriting(w.files, r, tc.run(r, phase.pre).files, phase.progress, name);
    w' := Step(tc, w, Write(id, name));
  }

  /** The compiler writes all its outputs. */
  lemma {:induction false} WritesAll(tc: Toolchain, policy: Policy, w: World, id: Id)
    returns (events: seq<Event>, w': World)
    requires Produces(tc) && id in w.tasks && w.tasks[id].phase.Compiling? && w.tasks[id].phase.progress.open == None
    requires Left(w.files, w.tasks[id].request, tc.run(w.tasks[id].request, w.tasks[id].phase.pre).files,
                  w.tasks[id].phase.progress)
    ensures Offline(events) && Quiet(events, id)
    ensures
      var r, phase := w.tasks[id].request, w.tasks[id].phase;
      && Reaches(tc, policy, w, events, w')
      && Moves(w, id, Compiling(phase.pre, phase.missType, Progress(tc.run(r, phase.pre).files.Keys, None)), w')
      && Holds(w'.files, r, tc.run(r, phase.pre).files) && w.files.Keys <= w'.files.Keys
    decreases tc.run(w.tasks[id].request, w.tasks[id].phase.pre).files.Keys - w.tasks[id].phase.progress.done
  {
    var r, phase := w.tasks[id].request, w.tasks[id].phase;
    var content := tc.run(r, phase.pre).files;
    if name :| name in content && name !in phase.progress.done {
      var e := Write(id, name);
      var w1 := WritesOne(tc, policy, w, id, name);
      var rest;
      rest, w' := WritesAll(tc, policy, w1, id);
      Further(tc, policy, w, [e], w1, rest, w');
      events := [e] + rest;
    } else {
      assert phase.progress.done == content.Keys;
      events, w' := [], w;
    }
  }

  /** The entry has gained the output files. */
  ghost predicate Gathered(r: Request, files: map<Path, Bytes>, was: Entry, entry: Entry) {
    && entry.Keys == r.args.outputs.Keys
    && (forall name :: name in was ==> name in entry && entry[name] == was[name])
    && forall name :: name in r.args.outputs && name !in was ==>
         name in entry && r.PathOf(name) in files && entry[name] == files[r.PathOf(name)]
  }

  /** One file more was read before. */
  lemma {:induction false} GatheredMore(r: Request, files: map<Path, Bytes>, was: Entry, name: string, more: Entry,
                                        entry: Entry)
    requires name in r.args.outputs && name !in was && r.PathOf(name) in files
    requires more == was[name := files[r.PathOf(name)]] && Gathered(r, files, more, entry)
    ensures Gathered(r, files, was, entry)
  {
    assert forall n :: n in was ==> n in more && more[n] == was[n];
  }

  /** Packing reads all the output files, whatever is in them. */
  lemma {:induction false} ReadsAll(tc: Toolchain, policy: Policy, w: World, id: Id)
    returns (events: seq<Event>, w': World, entry: Entry)
    requires Produces(tc) && id in w.tasks && w.tasks[id].phase.Packing?
    requires w.tasks[id].request.Paths() <= w.files.Keys
    requires w.tasks[id].phase.entry.Keys <= w.tasks[id].request.args.outputs.Keys
    ensures Offline(events) && Quiet(events, id)
    ensures
      var r, phase := w.tasks[id].request, w.tasks[id].phase;
      && Reaches(tc, policy, w, events, w')
      && Moves(w, id, Packing(phase.pre, phase.missType, phase.output, entry), w') && w'.files == w.files
      && Gathered(r, w.files, phase.entry, entry)
    decreases w.tasks[id].request.args.outputs.Keys - w.tasks[id].phase.entry.Keys
  {
    var r, phase := w.tasks[id].request, w.tasks[id].phase;
    if name :| name in r.args.outputs && name !in phase.entry {
      var e := Read(id, name);
      OneStep(tc, policy, w, e);
      assert r.PathOf(name) in r.Paths();
      var w1 := Step(tc, w, e);
      var more := phase.entry[name := w.files[r.PathOf(name)]];
      assert w1.tasks[id] == Task(r, Packing(phase.pre, phase.missType, phase.output, more)) && w1.files == w.files;
      assert more.Keys == phase.entry.Keys + {name};
      var rest;
      rest, w', entry := ReadsAll(tc, policy, w1, id);
      GatheredMore(r, w.files, phase.entry, name, more, entry);
      Further(tc, policy, w, [e], w1, rest, w');
      events := [e] + rest;
    } else {
      events, w', entry := [], w, phase.entry;
    }
  }

  /** A hit fills all the output files, that of `a` last. */
  lemma {:induction false} FillsAll(tc: Toolchain, policy: Policy, w: World, id: Id, a: string)
    returns (events: seq<Event>, w': World)
    requires Produces(tc) && id in w.tasks && w.tasks[id].phase.Unpacking? && w.tasks[id].phase.progress.open == None
    requires w.tasks[id].request.args.outputs.Keys <= w.tasks[id].phase.entry.Keys
    requires a in w.tasks[id].request.args.outputs && a !in w.tasks[id].phase.progress.done
    requires w.tasks[id].phase.progress.done <= w.tasks[id].request.args.outputs.Keys
    ensures Offline(events)
    ensures
      var r, phase := w.tasks[id].request, w.tasks[id].phase;
      && Reaches(tc, policy, w, events, w')
      && Moves(w, id, Unpacking(phase.pre, phase.entry, Progress(r.args.outputs.Keys, None)), w')
      && r.PathOf(a) in w'.files && w'.files[r.PathOf(a)] == phase.entry[a]
    decreases w.tasks[id].request.args.outputs.Keys - w.tasks[id].phase.progress.done
  {
    var r, phase := w.tasks[id].request, w.tasks[id].phase;
    var name := NextBut(r.args.outputs.Keys, phase.progress.done, a);
    var first, w1 := FillsOne(tc, policy, w, id, name);
    if name == a {
      events, w' := first, w1;
    } else {
      var rest;
      rest, w' := FillsAll(tc, policy, w1, id, a);
      Further(tc, policy, w, first, w1, rest, w');
      events := first + rest;
    }
  }

  /** The next output to write, `a` only when no other is left. */
  lemma {:induction false} NextBut(names: set<string>, done: set<string>, a: string) returns (name: string)
    requires a in names && a !in done && done <= names
    ensures name in names && name !in done
    ensures name == a ==> done + {a} == names
  {
    if other :| other in names && other !in done && other != a {
      name := other;
    } else {
      name := a;
    }
  }

  lemma {:induction false} FillsOne(tc: Toolchain, policy: Policy, w: World, id: Id, name: string)
    returns (events: seq<Event>, w': World)
    requires Produces(tc) && id in w.tasks && w.tasks[id].phase.Unpacking? && w.tasks[id].phase.progress.open == None
    requires name in w.tasks[id].request.args.outputs && name !in w.tasks[id].phase.progress.done
    requires name in w.tasks[id].phase.entry
    ensures Offline(events) && Quiet(events, id)
    ensures
      var r, phase := w.tasks[id].request, w.tasks[id].phase;
      && Reaches(tc, policy, w, events, w')
      && Moves(w, id, Unpacking(phase.pre, phase.entry, phase.progress.Written(name)), w')
      && w'.files == w.files[r.PathOf(name) := phase.entry[name]]
  {
    var e, e' := Create(id, name), Fill(id);
    OneStep(tc, policy, w, e);
    var w1 := Step(tc, w, e);
    OneStep(tc, policy, w1, e');
    w' := Step(tc, w1, e');
    Further(tc, policy, w, [e], w1, [e'], w');
    events := [e] + [e'];
  }

  /** A compile that has written its outputs, of which all are files. */
  ghost predicate Compiled(tc: Toolchain, w: World, id: Id, r: Request, pre: Bytes)
    requires Produces(tc)
  {
    && id in w.tasks && w.tasks[id] == Task(r, Compiling(pre, Miss(r), Progress(tc.run(r, pre).files.Keys, None)))
    && forall name :: name in tc.run(r, pre).files ==> r.PathOf(name) in w.files
  }

  /** A put is pending for what was read from the output files. */
  ghost predicate PutsWhatIsThere(tc: Toolchain, w: World, id: Id, r: Request, pre: Bytes, entry: Entry) {
    && entry.Keys == r.args.outputs.Keys
    && (forall name :: name in r.args.outputs ==> r.PathOf(name) in w.files && entry[name] == w.files[r.PathOf(name)])
  }

  lemma {:induction false} CompiledHasPaths(tc: Toolchain, w: World, id: Id, r: Request, pre: Bytes)
    requires Produces(tc) && Compiled(tc, w, id, r, pre) && tc.run(r, pre).output.Success()
    ensures r.Paths() <= w.files.Keys
  {
    forall p | p in r.Paths() ensures p in w.files {
      var name :| name in r.args.outputs && r.PathOf(name) == p;
      assert name in tc.run(r, pre).files;
    }
  }

  lemma {:induction false} PacksRead(tc: Toolchain, policy: Policy, w: World, id: Id, r: Request, pre: Bytes,
                                     entry: Entry) returns (w': World)
    requires Produces(tc) && id in w.tasks && entry.Keys == r.args.outputs.Keys
    requires w.tasks[id] == Task(r, Packing(pre, Miss(r), tc.run(r, pre).output, entry))
    ensures Reaches(tc, policy, w, [Packed(id)], w')
    ensures w' == World(w.files, w.store,
                        w.tasks[id := Task(r, Finished(pre, CacheMiss(Miss(r)), tc.run(r, pre).output))],
                        w.puts[id := Put(KeyOf(tc, r, pre), PutStreams(entry, tc.run(r, pre).output))])
  {
    OneStep(tc, policy, w, Packed(id));
    w' := Step(tc, w, Packed(id));
  }

  /** A compile that exits well is packed from the files as they are. */
  lemma {:induction false} Packs(tc: Toolchain, policy: Policy, w: World, id: Id, r: Request, pre: Bytes)
    returns (events: seq<Event>, w': World, entry: Entry)
    requires Produces(tc) && Compiled(tc, w, id, r, pre) && tc.run(r, pre).output.Success()
    ensures Offline(events)
    ensures Reaches(tc, policy, w, events, w') && PutsWhatIsThere(tc, w, id, r, pre, entry)
    ensures w' == World(w.files, w.store,
                        w.tasks[id := Task(r, Finished(pre, CacheMiss(Miss(r)), tc.run(r, pre).output))],
                        w.puts[id := Put(KeyOf(tc, r, pre), PutStreams(entry, tc.run(r, pre).output))])
  {
    var exit := Exit(id, true);
    OneStep(tc, policy, w, exit);
    var w1 := Step(tc, w, exit);
    CompiledHasPaths(tc, w, id, r, pre);
    var reading, w2;
    reading, w2, entry := ReadsAll(tc, policy, w1, id);
    w' := PacksRead(tc, policy, w2, id, r, pre, entry);
    Further(tc, policy, w, [exit], w1, reading, w2);
    Further(tc, policy, w, [exit] + reading, w2, [Packed(id)], w');
    events := [exit] + reading + [Packed(id)];
    assert w'.tasks == w.tasks[id := Task(r, Finished(pre, CacheMiss(Miss(r)), tc.run(r, pre).output))];
  }

  /** The same, and the put ends. */
  lemma {:induction false} PacksAndPuts(tc: Toolchain, policy: Policy, w: World, id: Id, r: Request, pre: Bytes)
    returns (events: seq<Event>, w': World, entry: Entry)
    requires Produces(tc) && Compiled(tc, w, id, r, pre) && tc.run(r, pre).output.Success() && id !in w.puts
    ensures Reaches(tc, policy, w, events, w') && PutsWhatIsThere(tc, w, id, r, pre, entry)
    ensures w' == World(w.files, w.store[KeyOf(tc, r, pre) := PutStreams(entry, tc.run(r, pre).output)],
                        w.tasks[id := Task(r, Finished(pre, CacheMiss(Miss(r)), tc.run(r, pre).output))], w.puts)
  {
    var packs, w1;
    packs, w1, entry := Packs(tc, policy, w, id, r, pre);
    var put := PutDone(id, true);
    OneStep(tc, policy, w1, put);
    w' := Step(tc, w1, put);
    Further(tc, policy, w, packs, w1, [put], w');
    events := packs + [put];
    assert w'.puts == w.puts;
  }

  // ----- Spoiling an output -----

  /** The output `a` of the compile of `r` is in a file where another request
      leaves something else as its output `b`, if only for a while. */
  ghost predicate Spoils(tc: Toolchain, r: Request, pre: Bytes, r': Request, pre': Bytes, a: string, b: string)
    requires Produces(tc)
  {
    var c, c' := tc.run(r, pre), tc.run(r', pre');
    && a in c.files && b in c'.files && r.PathOf(a) == r'.PathOf(b)
    && (c.files[a] != c'.files[b] || (c.files[a] != [] && (tc.inPlace || Unpackable(tc, r', pre'))))
  }

  /** Whether it takes a hit to spoil it. */
  ghost predicate ByHit(tc: Toolchain, r: Request, pre: Bytes, r': Request, pre': Bytes, a: string, b: string)
    requires Produces(tc) && Spoils(tc, r, pre, r', pre', a, b)
  {
    tc.run(r, pre).files[a] == tc.run(r', pre').files[b] && !tc.inPlace
  }

  lemma {:induction false} ClashSpoils(tc: Toolchain, r: Request, pre: Bytes, r': Request, pre': Bytes)
    returns (a: string, b: string)
    requires Produces(tc) && Clash(tc, r, pre, r', pre')
    ensures Spoils(tc, r, pre, r', pre', a, b) || Spoils(tc, r', pre', r, pre, b, a)
  {
    var c, c' := tc.run(r, pre), tc.run(r', pre');
    a, b :| a in c.files && b in c'.files && r.PathOf(a) == r'.PathOf(b) &&
            (c.files[a] != c'.files[b]
             || (c.files[a] != [] && (tc.inPlace || Unpackable(tc, r, pre) || Unpackable(tc, r', pre'))));
  }

  /** The file of output `a` does not hold it. */
  ghost predicate Wrong(tc: Toolchain, files: map<Path, Bytes>, r: Request, pre: Bytes, a: string)
    requires Produces(tc)
  {
    a in tc.run(r, pre).files && r.PathOf(a) in files && files[r.PathOf(a)] != tc.run(r, pre).files[a]
  }

  /** One step of the other request. */
  lemma {:induction false} OneSpoils(tc: Toolchain, policy: Policy, w: World, j: Id, r: Request, pre: Bytes,
                                     r': Request, pre': Bytes, a: string, b: string, entry: Entry)
    returns (e: Event, w': World)
    requires Produces(tc) && Spoils(tc, r, pre, r', pre', a, b) && j in w.tasks
    requires w.tasks[j] == Task(r', if ByHit(tc, r, pre, r', pre', a, b) then Unpacking(pre', entry, NOTHING_YET)
                                    else Compiling(pre', Miss(r'), NOTHING_YET))
    ensures Enabled(tc, w, e) && Reaches(tc, policy, w, [e], w')
    ensures w'.tasks.Keys == w.tasks.Keys && w'.store == w.store && w'.puts == w.puts
    ensures forall id :: id in w.tasks && id != j ==> w'.tasks[id] == w.tasks[id]
    ensures w'.tasks[j].Active() && w'.tasks[j].request == r'
    ensures w.files.Keys <= w'.files.Keys && Wrong(tc, w'.files, r, pre, a)
  {
    e := if ByHit(tc, r, pre, r', pre', a, b) then Create(j, b)
         else if tc.run(r, pre).files[a] != tc.run(r', pre').files[b] then Write(j, b)
         else Truncate(j, b);
    OneStep(tc, policy, w, e);
    w' := Step(tc, w, e);
  }

  /** The store a spoiling hit needs. */
  ghost function Stocked(tc: Toolchain, r: Request, pre: Bytes, hit: bool): map<Key, Entry> {
    if hit then map[KeyOf(tc, r, pre) := PackedEntry(tc.run(r, pre))] else map[]
  }

  lemma {:induction false} StockedOk(tc: Toolchain, r: Request, pre: Bytes, hit: bool)
    requires Produces(tc) && tc.arises(r, pre) && OutputNames(r.args.outputs.Keys)
    requires hit ==> tc.run(r, pre).output.Success()
    ensures StoreOk(tc, Stocked(tc, r, pre, hit))
  {
    assert hit ==> PacksThis(tc, KeyOf(tc, r, pre), PackedEntry(tc.run(r, pre)), r, pre);
  }

  predicate Idle(w: World) { forall id :: id in w.tasks ==> !w.tasks[id].Active() }

  /** Both requests get ready, the one that the policy wants first. */
  lemma {:induction false} BothReady(tc: Toolchain, policy: Policy, w: World, i: Id, r: Request, pre: Bytes,
                                     j: Id, r': Request, pre': Bytes, hit: bool)
    returns (events: seq<Event>, w': World)
    requires Produces(tc) && OutputNames(r.args.outputs.Keys) && OutputNames(r'.args.outputs.Keys)
    requires policy(r, r') || policy(r', r)
    requires tc.arises(r, pre) && tc.arises(r', pre') && Idle(w) && i !in w.tasks && j !in w.tasks && i != j
    requires hit ==> r'.control == Default && KeyOf(tc, r', pre') in w.store
    ensures Reaches(tc, policy, w, events, w') && w'.files == w.files && w'.store == w.store && w'.puts == w.puts
    ensures w'.tasks == w.tasks[i := Task(r, Compiling(pre, Miss(r), NOTHING_YET))]
                               [j := Task(r', Ready(tc, w, r', pre', hit))]
  {
    if policy(r, r') {
      var first := StartsReady(tc, policy, w, i, r, pre, false);
      var w1 := w.(tasks := w.tasks[i := Task(r, Ready(tc, w, r, pre, false))]);
      var second := StartsReady(tc, policy, w1, j, r', pre', hit);
      w' := w1.(tasks := w1.tasks[j := Task(r', Ready(tc, w1, r', pre', hit))]);
      Further(tc, policy, w, first, w1, second, w');
      events := first + second;
    } else {
      var first := StartsReady(tc, policy, w, j, r', pre', hit);
      var w1 := w.(tasks := w.tasks[j := Task(r', Ready(tc, w, r', pre', hit))]);
      var second := StartsReady(tc, policy, w1, i, r, pre, false);
      w' := w1.(tasks := w1.tasks[i := Task(r, Ready(tc, w1, r, pre, false))]);
      Further(tc, policy, w, first, w1, second, w');
      events := first + second;
    }
  }

  lemma {:induction false} WritesThenSpoiled(tc: Toolchain, policy: Policy, w: World, i: Id, r: Request, pre: Bytes,
                                             j: Id, r': Request, pre': Bytes, a: string, b: string, entry: Entry)
    returns (events: seq<Event>, w': World)
    requires Produces(tc) && Spoils(tc, r, pre, r', pre', a, b) && i in w.tasks && j in w.tasks && i != j
    requires w.tasks[i] == Task(r, Compiling(pre, Miss(r), NOTHING_YET))
    requires w.tasks[j] == Task(r', if ByHit(tc, r, pre, r', pre', a, b) then Unpacking(pre', entry, NOTHING_YET)
                                    else Compiling(pre', Miss(r'), NOTHING_YET))
    ensures Reaches(tc, policy, w, events, w') && w'.store == w.store && w'.puts == w.puts
    ensures w'.tasks.Keys == w.tasks.Keys
         && forall id :: id in w.tasks && id != i && id != j ==> w'.tasks[id] == w.tasks[id]
    ensures Compiled(tc, w', i, r, pre) && Wrong(tc, w'.files, r, pre, a)
    ensures w'.tasks[j].Active() && w'.tasks[j].request == r'
  {
    var writes, w1 := WritesAll(tc, policy, w, i);
    var e;
    e, w' := OneSpoils(tc, policy, w1, j, r, pre, r', pre', a, b, entry);
    Further(tc, policy, w, writes, w1, [e], w');
    events := writes + [e];
  }

  /** A clash shows: the compile of `r` is complete, and its output spoiled. */
  lemma {:induction false} Spoiled(tc: Toolchain, policy: Policy, w: World, i: Id, r: Request, pre: Bytes,
                                   j: Id, r': Request, pre': Bytes, a: string, b: string)
    returns (events: seq<Event>, w': World)
    requires Produces(tc) && OutputNames(r.args.outputs.Keys) && OutputNames(r'.args.outputs.Keys)
    requires policy(r, r') || policy(r', r)
    requires tc.arises(r, pre) && tc.arises(r', pre') && Idle(w) && i !in w.tasks && j !in w.tasks && i != j
    requires Spoils(tc, r, pre, r', pre', a, b)
    requires ByHit(tc, r, pre, r', pre', a, b) ==> KeyOf(tc, r', pre') in w.store
    ensures Reaches(tc, policy, w, events, w') && w'.store == w.store && w'.puts == w.puts
    ensures w'.tasks.Keys == w.tasks.Keys + {i, j} && forall id :: id in w.tasks ==> w'.tasks[id] == w.tasks[id]
    ensures Compiled(tc, w', i, r, pre) && Wrong(tc, w'.files, r, pre, a)
    ensures w'.tasks[j].Active() && w'.tasks[j].request == r'
  {
    var hit := ByHit(tc, r, pre, r', pre', a, b);
    var ready, w1 := BothReady(tc, policy, w, i, r, pre, j, r', pre', hit);
    var entry := if hit then w.store[KeyOf(tc, r', pre')] else map[];
    var spoils;
    spoils, w' := WritesThenSpoiled(tc, policy, w1, i, r, pre, j, r', pre', a, b, entry);
    Further(tc, policy, w, ready, w1, spoils, w');
    events := ready + spoils;
  }

  // ----- The exact condition -----

  /** The client is told that its compile is done while its file is wrong. */
  lemma {:induction false} ExitShows(tc: Toolchain, policy: Policy, w: World, i: Id, r: Request, pre: Bytes, a: string)
    returns (e: Event, w': World)
    requires Produces(tc) && Compiled(tc, w, i, r, pre) && Wrong(tc, w.files, r, pre, a)
    ensures Reaches(tc, policy, w, [e], w') && !TransparentThroughout(tc, w, [e])
  {
    e := Exit(i, false);
    OneStep(tc, policy, w, e);
    w' := Step(tc, w, e);
    assert FinishedBy(w, w', i) && !LikeDirect(tc, w', i);
  }

  lemma {:induction false} SpoilShows(tc: Toolchain, policy: Policy, r: Request, pre: Bytes, r': Request, pre': Bytes,
                                      a: string, b: string)
    returns (store: map<Key, Entry>, events: seq<Event>)
    requires Produces(tc) && OutputNames(r.args.outputs.Keys) && OutputNames(r'.args.outputs.Keys)
    requires policy(r, r') || policy(r', r)
    requires tc.arises(r, pre) && tc.arises(r', pre') && Spoils(tc, r, pre, r', pre', a, b)
    ensures StoreOk(tc, store) && IsRun(tc, Initial(map[], store), events)
    ensures AdmissibleRun(tc, policy, Initial(map[], store), events)
    ensures !TransparentThroughout(tc, Initial(map[], store), events)
  {
    var hit := ByHit(tc, r, pre, r', pre', a, b);
    store := Stocked(tc, r', pre', hit);
    StockedOk(tc, r', pre', hit);
    var w := Initial(map[], store);
    var spoil, w1 := Spoiled(tc, policy, w, 1, r, pre, 2, r', pre', a, b);
    var e, w2 := ExitShows(tc, policy, w1, 1, r, pre, a);
    Further(tc, policy, w, spoil, w1, [e], w2);
    events := spoil + [e];
  }

  ghost predicate Transparent(tc: Toolchain, policy: Policy)
    requires Produces(tc)
  {
    forall files, store, events ::
      StoreOk(tc, store) && IsRun(tc, Initial(files, store), events)
      && AdmissibleRun(tc, policy, Initial(files, store), events)
      ==> TransparentThroughout(tc, Initial(files, store), events)
  }

  /** The exact condition, for a given compiler: every run that the policy
      admits is transparent if and only if no two requests that it lets overlap
      can clash. */
  lemma {:induction false} TransparentExactly(tc: Toolchain, policy: Policy)
    requires Produces(tc) && KeyDetermines(tc)
    ensures Transparent(tc, policy) <==> Coherent(tc, policy)
  {
    if Coherent(tc, policy) {
      forall files, store, events
        | StoreOk(tc, store) && IsRun(tc, Initial(files, store), events)
          && AdmissibleRun(tc, policy, Initial(files, store), events)
        ensures TransparentThroughout(tc, Initial(files, store), events)
      {
        CacheTransparent(tc, policy, files, store, events);
      }
    } else {
      var r1: Request, r2: Request :| OutputNames(r1.args.outputs.Keys) && OutputNames(r2.args.outputs.Keys)
                                      && policy(r1, r2) && !NeverClash(tc, r1, r2);
      var p1, p2 :| tc.arises(r1, p1) && tc.arises(r2, p2) && Clash(tc, r1, p1, r2, p2);
      var a, b := ClashSpoils(tc, r1, p1, r2, p2);
      if Spoils(tc, r1, p1, r2, p2, a, b) {
        var store, events := SpoilShows(tc, policy, r1, p1, r2, p2, a, b);
      } else {
        var store, events := SpoilShows(tc, policy, r2, p2, r1, p1, b, a);
      }
    }
  }

  ghost predicate DisjointPaths(policy: Policy) {
    forall r: Request, r': Request ::
      OutputNames(r.args.outputs.Keys) && OutputNames(r'.args.outputs.Keys) && policy(r, r')
      ==> r.Paths() !! r'.Paths()
  }

  predicate Either(r1: Request, p1: Bytes, r2: Request, p2: Bytes, r: Request, pre: Bytes) {
    (r == r1 && pre == p1) || (r == r2 && pre == p2)
  }

  lemma {:induction false} SharedPathClashes(r1: Request, r2: Request)
    requires !(r1.Paths() !! r2.Paths())
    ensures
      var tc := Echo((r, pre) => Either(r1, [0], r2, [1], r, pre));
      Produces(tc) && KeyDetermines(tc) && !NeverClash(tc, r1, r2)
  {
    var arises := (r, pre) => Either(r1, [0], r2, [1], r, pre);
    assert SourceFixesOutputs(arises) by { assert [0] != [1]; }
    EchoMeetsThem(arises);
    var p :| p in r1.Paths() && p in r2.Paths();
    var a :| a in r1.args.outputs && r1.PathOf(a) == p;
    var b :| b in r2.args.outputs && r2.PathOf(b) == p;
    var tc := Echo(arises);
    assert tc.run(r1, [0]).files[a] != tc.run(r2, [1]).files[b];
    assert Clash(tc, r1, [0], r2, [1]);
  }

  /** The exact condition, for a policy that must do for every compiler: it
      keeps requests with a common output file apart. */
  lemma {:induction false} DisjointExactly(policy: Policy)
    ensures (forall tc :: Produces(tc) && KeyDetermines(tc) ==> Transparent(tc, policy)) <==> DisjointPaths(policy)
  {
    if DisjointPaths(policy) {
      forall tc | Produces(tc) && KeyDetermines(tc) ensures Transparent(tc, policy) {
        DisjointIsCoherent(tc, policy);
        TransparentExactly(tc, policy);
      }
    } else {
      var r1: Request, r2: Request :| OutputNames(r1.args.outputs.Keys) && OutputNames(r2.args.outputs.Keys)
                                      && policy(r1, r2) && !(r1.Paths() !! r2.Paths());
      SharedPathClashes(r1, r2);
      var tc := Echo((r, pre) => Either(r1, [0], r2, [1], r, pre));
      assert !Coherent(tc, policy);
      TransparentExactly(tc, policy);
    }
  }

  lemma {:induction false} DisjointIsCoherent(tc: Toolchain, policy: Policy)
    requires Produces(tc) && DisjointPaths(policy)
    ensures Coherent(tc, policy)
  {
    forall r: Request, r': Request
      | OutputNames(r.args.outputs.Keys) && OutputNames(r'.args.outputs.Keys) && policy(r, r')
      ensures NeverClash(tc, r, r')
    {
      forall a, b | a in r.args.outputs && b in r'.args.outputs ensures r.PathOf(a) != r'.PathOf(b) {
        assert r.PathOf(a) in r.Paths() && r'.PathOf(b) in r'.Paths();
      }
    }
  }

  // ----- What a clash leaves behind -----

  /** The store holds an entry under the key of a compile, with every output
      but the wrong object `a`. */
  ghost predicate WrongEntry(tc: Toolchain, w: World, r: Request, pre: Bytes, a: string) {
    var key := KeyOf(tc, r, pre);
    && key in w.store && r.args.outputs.Keys <= w.store[key].Keys
    && a in w.store[key] && a in tc.run(r, pre).files && w.store[key][a] != tc.run(r, pre).files[a]
  }

  lemma {:induction false} WrongObject(tc: Toolchain, w: World, r: Request, pre: Bytes, a: string)
    requires Produces(tc) && KeyDetermines(tc) && tc.arises(r, pre) && WrongEntry(tc, w, r, pre, a)
    ensures !PacksACompile(tc, KeyOf(tc, r, pre), w.store[KeyOf(tc, r, pre)])
  {
    var entry := w.store[KeyOf(tc, r, pre)];
    if PacksACompile(tc, KeyOf(tc, r, pre), entry) { UnpackPacked(tc, r, pre, entry); }
  }

  /** What was read from a wrong file is stored. */
  lemma {:induction false} WrongIsStored(tc: Toolchain, policy: Policy, w: World, i: Id, r: Request, pre: Bytes,
                                         a: string)
    returns (events: seq<Event>, w': World)
    requires Produces(tc) && Compiled(tc, w, i, r, pre) && tc.run(r, pre).output.Success() && i !in w.puts
    requires OutputNames(r.args.outputs.Keys) && Wrong(tc, w.files, r, pre, a)
    ensures Reaches(tc, policy, w, events, w') && WrongEntry(tc, w', r, pre, a)
    ensures i in w'.tasks && w'.tasks[i].phase.Finished? && w'.tasks == w.tasks[i := w'.tasks[i]]
    ensures KeyOf(tc, r, pre) in w'.store && w'.store[KeyOf(tc, r, pre)][a] == w.files[r.PathOf(a)]
  {
    var entry;
    events, w', entry := PacksAndPuts(tc, policy, w, i, r, pre);
    StreamNamesApart(r.args.outputs.Keys);
  }

  /** A later request with the same key hits the wrong entry. */
  lemma {:induction false} WrongHit(tc: Toolchain, policy: Policy, w: World, id: Id, r: Request, pre: Bytes, a: string)
    returns (events: seq<Event>, w': World)
    requires Produces(tc) && tc.arises(r, pre) && OutputNames(r.args.outputs.Keys) && r.control == Default
    requires id !in w.tasks && Idle(w) && WrongEntry(tc, w, r, pre, a)
    ensures Reaches(tc, policy, w, events, w') && w'.store == w.store
    ensures id in w'.tasks && w'.tasks[id].request == r && w'.tasks[id].phase.Finished?
    ensures w'.tasks[id].phase.pre == pre && w'.tasks[id].phase.result == CacheHit
    ensures Wrong(tc, w'.files, r, pre, a) && !LikeDirect(tc, w', id)
    ensures w'.files[r.PathOf(a)] == w.store[KeyOf(tc, r, pre)][a]
  {
    var ready := StartsReady(tc, policy, w, id, r, pre, true);
    var w1 := w.(tasks := w.tasks[id := Task(r, Ready(tc, w, r, pre, true))]);
    var fills, w2 := FillsAll(tc, policy, w1, id, a);
    Further(tc, policy, w, ready, w1, fills, w2);
    var e := Unpacked(id);
    OneStep(tc, policy, w2, e);
    w' := Step(tc, w2, e);
    Further(tc, policy, w, ready + fills, w2, [e], w');
    events := ready + fills + [e];
  }

  /** What a spoiled compile comes to: its wrong entry is stored, the other
      request gives up, and a later one with the same key hits. */
  lemma {:induction false} SpoilStays(tc: Toolchain, policy: Policy, w: World, i: Id, j: Id, r: Request, pre: Bytes,
                                      a: string, id: Id, later: Request, source: Bytes)
    returns (events: seq<Event>, w': World)
    requires Produces(tc) && KeyDetermines(tc) && OutputNames(r.args.outputs.Keys) && tc.arises(r, pre)
    requires Compiled(tc, w, i, r, pre) && Wrong(tc, w.files, r, pre, a)
    requires tc.run(r, pre).output.Success() && i !in w.puts
    requires j in w.tasks && j != i && w.tasks[j].Active() && id !in w.tasks
    requires forall k :: k in w.tasks && k != i && k != j ==> !w.tasks[k].Active()
    requires tc.arises(later, source) && later.control == Default && KeyOf(tc, later, source) == KeyOf(tc, r, pre)
    ensures Reaches(tc, policy, w, events, w')
    ensures
      var key := KeyOf(tc, r, pre);
      && key in w'.store && !PacksACompile(tc, key, w'.store[key])
      && a in w'.store[key] && w'.store[key][a] == w.files[r.PathOf(a)]
    ensures id in w'.tasks && w'.tasks[id].request == later && w'.tasks[id].phase.Finished?
    ensures w'.tasks[id].phase.pre == source && w'.tasks[id].phase.result == CacheHit && !LikeDirect(tc, w', id)
  {
    var stores, w1 := WrongIsStored(tc, policy, w, i, r, pre, a);
    OneStep(tc, policy, w1, Abort(j));
    var w2 := Step(tc, w1, Abort(j));
    Further(tc, policy, w, stores, w1, [Abort(j)], w2);
    WrongObject(tc, w2, r, pre, a);
    assert tc.run(later, source) == tc.run(r, pre) && later.args.outputs.Keys == r.args.outputs.Keys;
    var hit;
    hit, w' := WrongHit(tc, policy, w2, id, later, source, a);
    Further(tc, policy, w, stores + [Abort(j)], w2, hit, w');
    events := stores + [Abort(j)] + hit;
  }

  /** A clash poisons the store. When the output of one successful compile can
      be spoiled by a request that may overlap it, some run leaves an entry under
      its key that packs no compile, and a later request with that key is
      answered with a hit whose files are wrong. */
  lemma {:induction false} SharedOutputPoisons(tc: Toolchain, policy: Policy, r: Request, pre: Bytes, r': Request,
                                               pre': Bytes, a: string, b: string, later: Request, source: Bytes)
    returns (store: map<Key, Entry>, events: seq<Event>, w: World)
    requires Produces(tc) && KeyDetermines(tc)
    requires OutputNames(r.args.outputs.Keys) && OutputNames(r'.args.outputs.Keys)
    requires policy(r, r') || policy(r', r)
    requires tc.arises(r, pre) && tc.arises(r', pre') && tc.run(r, pre).output.Success()
    requires Spoils(tc, r, pre, r', pre', a, b)
    requires tc.arises(later, source) && later.control == Default && KeyOf(tc, later, source) == KeyOf(tc, r, pre)
    ensures store == Stocked(tc, r', pre', ByHit(tc, r, pre, r', pre', a, b))
    ensures StoreOk(tc, store) && Reaches(tc, policy, Initial(map[], store), events, w)
    ensures KeyOf(tc, r, pre) in w.store && !PacksACompile(tc, KeyOf(tc, r, pre), w.store[KeyOf(tc, r, pre)])
    ensures 3 in w.tasks && w.tasks[3].request == later && w.tasks[3].phase.Finished? && w.tasks[3].phase.pre == source
    ensures w.tasks[3].phase.result == CacheHit && !LikeDirect(tc, w, 3)
  {
    var hit := ByHit(tc, r, pre, r', pre', a, b);
    store := Stocked(tc, r', pre', hit);
    StockedOk(tc, r', pre', hit);
    var w0 := Initial(map[], store);
    var spoil, w1 := Spoiled(tc, policy, w0, 1, r, pre, 2, r', pre', a, b);
    var stays;
    stays, w := SpoilStays(tc, policy, w1, 1, 2, r, pre, a, 3, later, source);
    Further(tc, policy, w0, spoil, w1, stays, w);
    events := spoil + stays;
  }

  // ----- Two examples -----

  const Anything: Policy := (running, next) => true
  const Edited: Request := Request("", ParsedArguments("a.c", "c", None, map[OBJ := "a.o"], [], []), "/", Default)

  /** Nothing more is needed than compiling one file again while its first
      compile, of other text, is under way. */
  lemma {:induction false} EditedWhileCompiling() returns (events: seq<Event>, w: World)
    ensures
      var tc := Echo((r, pre) => Either(Edited, [0], Edited, [1], r, pre));
      var key := KeyOf(tc, Edited, [0]);
      && Produces(tc) && KeyDetermines(tc)
      && Reaches(tc, Anything, Initial(map[], map[]), events, w)
      && key in w.store && !PacksACompile(tc, key, w.store[key])
      && 3 in w.tasks && w.tasks[3].phase.Finished? && w.tasks[3].phase.pre == [0]
      && w.tasks[3].phase.result == CacheHit && !LikeDirect(tc, w, 3)
  {
    var arises := (r, pre) => Either(Edited, [0], Edited, [1], r, pre);
    EchoMeetsThem(arises);
    var tc := Echo(arises);
    assert tc.run(Edited, [0]).files[OBJ] != tc.run(Edited, [1]).files[OBJ];
    var store;
    store, events, w := SharedOutputPoisons(tc, Anything, Edited, [0], Edited, [1], OBJ, OBJ, Edited, [0]);
  }

  const Repeated: Toolchain := Echo((r, pre) => Either(Edited, [0], Edited, [0], r, pre))

  /** Two of the same compile have started, and the first one's entry is
      stored. */
  lemma {:induction false} FirstIsStored() returns (events: seq<Event>, w: World)
    ensures Produces(Repeated) && Reaches(Repeated, Anything, Initial(map[], map[]), events, w)
    ensures w.tasks.Keys == {0, 1} && w.tasks[0].phase.Finished?
    ensures w.tasks[1] == Task(Edited, Compiling([0], Normal, NOTHING_YET)) && 1 !in w.puts
    ensures KeyOf(Repeated, Edited, [0]) in w.store && OBJ in w.store[KeyOf(Repeated, Edited, [0])]
  {
    EchoMeetsThem((r, pre) => Either(Edited, [0], Edited, [0], r, pre));
    var tc, w0 := Repeated, Initial(map[], map[]);
    var e1 := StartsReady(tc, Anything, w0, 1, Edited, [0], false);
    var w1 := w0.(tasks := w0.tasks[1 := Task(Edited, Ready(tc, w0, Edited, [0], false))]);
    var e2 := StartsReady(tc, Anything, w1, 0, Edited, [0], false);
    var w2 := w1.(tasks := w1.tasks[0 := Task(Edited, Ready(tc, w1, Edited, [0], false))]);
    var e3, w3 := WritesAll(tc, Anything, w2, 0);
    var e4, entry;
    e4, w, entry := PacksAndPuts(tc, Anything, w3, 0, Edited, [0]);
    Further(tc, Anything, w0, e1, w1, e2, w2);
    Further(tc, Anything, w0, e1 + e2, w2, e3, w3);
    Further(tc, Anything, w0, e1 + e2 + e3, w3, e4, w);
    events := e1 + e2 + e3 + e4;
  }

  /** One and the same compile is asked for four times, and all outcomes are
      equal. The second has compiled and is about to pack when the third hits what
      the first stored and empties the object file; the second packs it empty,
      over the good entry, and the fourth hits that. */
  lemma {:induction false} SameCompileRepeated() returns (events: seq<Event>, w: World)
    ensures
      var tc := Repeated;
      var key := KeyOf(tc, Edited, [0]);
      && Produces(tc) && KeyDetermines(tc) && !tc.inPlace
      && Reaches(tc, Anything, Initial(map[], map[]), events, w)
      && key in w.store && OBJ in w.store[key] && w.store[key][OBJ] == [] && !PacksACompile(tc, key, w.store[key])
      && 3 in w.tasks && w.tasks[3].phase.Finished? && w.tasks[3].phase.result == CacheHit
      && !LikeDirect(tc, w, 3)
  {
    EchoMeetsThem((r, pre) => Either(Edited, [0], Edited, [0], r, pre));
    var tc, w0 := Repeated, Initial(map[], map[]);
    var e1, w1 := FirstIsStored();
    var e2, w2 := SecondIsSpoiled(w1);
    Further(tc, Anything, w0, e1, w1, e2, w2);
    var e3;
    e3, w := SpoilStays(tc, Anything, w2, 1, 2, Edited, [0], OBJ, 3, Edited, [0]);
    Further(tc, Anything, w0, e1 + e2, w2, e3, w);
    events := e1 + e2 + e3;
  }

  lemma {:induction false} SecondIsSpoiled(w: World) returns (events: seq<Event>, w': World)
    requires Produces(Repeated) && w.tasks.Keys == {0, 1} && w.tasks[0].phase.Finished?
    requires w.tasks[1] == Task(Edited, Compiling([0], Normal, NOTHING_YET)) && 1 !in w.puts
    requires KeyOf(Repeated, Edited, [0]) in w.store && OBJ in w.store[KeyOf(Repeated, Edited, [0])]
    ensures Reaches(Repeated, Anything, w, events, w') && w'.tasks.Keys == {0, 1, 2} && 1 !in w'.puts
    ensures Compiled(Repeated, w', 1, Edited, [0]) && Wrong(Repeated, w'.files, Edited, [0], OBJ)
    ensures w'.tasks[0].phase.Finished? && w'.tasks[2].phase.Unpacking? && w'.files[Edited.PathOf(OBJ)] == []
  {
    var tc := Repeated;
    var e1, w1 := WritesAll(tc, Anything, w, 1);
    var e2 := StartsReady(tc, Anything, w1, 2, Edited, [0], true);
    var w2 := w1.(tasks := w1.tasks[2 := Task(Edited, Ready(tc, w1, Edited, [0], true))]);
    OneStep(tc, Anything, w2, Create(2, OBJ));
    w' := Step(tc, w2, Create(2, OBJ));
    Further(tc, Anything, w, e1, w1, e2, w2);
    Further(tc, Anything, w, e1 + e2, w2, [Create(2, OBJ)], w');
    events := e1 + e2 + [Create(2, OBJ)];
  }
}
