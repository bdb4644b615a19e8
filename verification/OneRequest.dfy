/** Runs of the machine in which one request is on its own from start to end. */
module OneRequest {
  import opened CompilerArguments
  import opened Options
  import opened Octets
  import opened CachedCompile
  import opened CacheTransparency
  import opened SharedOutputs

  /** What the client is told. */
  datatype Told = Told(result: CompileResult, output: Output)

  const ME: Id := 1

  /** All events are the request's own, the storage answers as available and the
      compiler is as cacheable as it is. */
  predicate Alone(events: seq<Event>, available: bool, cacheable: bool) {
    forall e :: e in events ==>
      && OfRequest(e) && e.id == ME
      && (e.LookedUp? ==> e.answer == if available then Found else NotFound)
      && (e.Exit? ==> e.cacheable == cacheable)
  }

  /** The end of a run: the request has its answer, and the files and the
      pending puts are these. */
  ghost predicate EndsWith(w: World, r: Request, pre: Bytes, answer: Told, files: map<Path, Bytes>, puts: seq<Put>) {
    && w.files == files && ME in w.tasks && w.tasks[ME].request == r
    && w.puts == (if puts == [] then map[] else map[ME := puts[0]]) && |puts| <= 1
    && (if answer.result == Error then w.tasks[ME].phase == PreprocessFailed(answer.output)
        else w.tasks[ME].phase == Finished(pre, answer.result, answer.output))
  }

  /** Some run of the request alone starts from these files and this store, and
      ends like that. */
  ghost predicate RunsAlone(tc: Toolchain, files: map<Path, Bytes>, store: map<Key, Entry>, r: Request,
                            preprocessed: Output, available: bool, cacheable: bool, answer: Told,
                            files': map<Path, Bytes>, puts: seq<Put>)
    requires Produces(tc)
  {
    exists events ::
      && IsRun(tc, Initial(files, store), events) && Alone(events, available, cacheable)
      && |events| >= 2 && events[0] == Start(ME, r) && events[1] == Preprocessed(ME, preprocessed)
      && EndsWith(Run(tc, Initial(files, store), events), r, preprocessed.stdout, answer, files', puts)
  }

  lemma {:induction false} AloneConcat(a: seq<Event>, b: seq<Event>, available: bool, cacheable: bool)
    requires Alone(a, available, cacheable) && Alone(b, available, cacheable)
    ensures Alone(a + b, available, cacheable)
  {
    forall e | e in a + b ensures e in a || e in b { }
  }

  // ----- Beginnings -----

  lemma {:induction false} Begins(tc: Toolchain, files: map<Path, Bytes>, store: map<Key, Entry>, r: Request,
                                  preprocessed: Output)
    returns (events: seq<Event>, w: World)
    requires Produces(tc) && OutputNames(r.args.outputs.Keys)
    requires preprocessed.Success() ==> tc.arises(r, preprocessed.stdout)
    ensures Reaches(tc, Anything, Initial(files, store), events, w)
    ensures events == [Start(ME, r), Preprocessed(ME, preprocessed)]
    ensures w == World(files, store, map[ME := Task(r, AfterPreprocess(r, preprocessed))], map[])
  {
    var w0, e1, e2 := Initial(files, store), Start(ME, r), Preprocessed(ME, preprocessed);
    OneStep(tc, Anything, w0, e1);
    var w1 := Step(tc, w0, e1);
    OneStep(tc, Anything, w1, e2);
    w := Step(tc, w1, e2);
    Further(tc, Anything, w0, [e1], w1, [e2], w);
    events := [e1, e2];
    assert events == [e1] + [e2];
    assert w.tasks == map[ME := Task(r, AfterPreprocess(r, preprocessed))];
  }

  /** From there on, whatever runs. */
  lemma {:induction false} Goes(tc: Toolchain, files: map<Path, Bytes>, store: map<Key, Entry>, r: Request,
                                preprocessed: Output, available: bool, cacheable: bool, answer: Told,
                                files': map<Path, Bytes>, puts: seq<Put>, later: seq<Event>, w: World)
    requires Produces(tc) && OutputNames(r.args.outputs.Keys)
    requires preprocessed.Success() ==> tc.arises(r, preprocessed.stdout)
    requires Reaches(tc, Anything, World(files, store, map[ME := Task(r, AfterPreprocess(r, preprocessed))], map[]),
                     later, w)
    requires Alone(later, available, cacheable) && EndsWith(w, r, preprocessed.stdout, answer, files', puts)
    ensures RunsAlone(tc, files, store, r, preprocessed, available, cacheable, answer, files', puts)
  {
    var first, w1 := Begins(tc, files, store, r, preprocessed);
    Further(tc, Anything, Initial(files, store), first, w1, later, w);
    var events := first + later;
    assert events[0] == Start(ME, r) && events[1] == Preprocessed(ME, preprocessed);
    AloneConcat(first, later, available, cacheable);
  }

  // ----- The three ways to go on -----

  lemma {:induction false} AlonePreprocessFails(tc: Toolchain, files: map<Path, Bytes>, store: map<Key, Entry>,
                                                r: Request, preprocessed: Output, available: bool, cacheable: bool)
    requires Produces(tc) && OutputNames(r.args.outputs.Keys) && !preprocessed.Success()
    ensures RunsAlone(tc, files, store, r, preprocessed, available, cacheable,
                      Told(Error, preprocessed.(stdout := [])), files, [])
  {
    var w := World(files, store, map[ME := Task(r, AfterPreprocess(r, preprocessed))], map[]);
    Goes(tc, files, store, r, preprocessed, available, cacheable, Told(Error, preprocessed.(stdout := [])), files, [],
         [], w);
  }

  /** Two maps that hold the same contents in the same files, and are otherwise
      like a third. */
  lemma {:induction false} SameFiles(files: map<Path, Bytes>, a: map<Path, Bytes>, b: map<Path, Bytes>, r: Request,
                                     content: map<string, Bytes>)
    requires content.Keys <= r.args.outputs.Keys && Holds(a, r, content) && Holds(b, r, content)
    requires SameOutside(files, a, PathsOf(r, content.Keys)) && SameOutside(files, b, PathsOf(r, content.Keys))
    ensures a == b
  {
    forall p ensures p in a <==> p in b
      ensures p in a && p in b ==> a[p] == b[p]
    {
      if p in PathsOf(r, content.Keys) {
        var name :| name in content && r.PathOf(name) == p;
        assert a[p] == content[name] == b[p];
      }
    }
  }

  /** The entry has every object of the content. */
  ghost predicate Supplies(entry: Entry, content: map<string, Bytes>) {
    forall name :: name in content ==> name in entry && entry[name] == content[name]
  }

  lemma {:induction false} RunIsConsistent(tc: Toolchain, r: Request, pre: Bytes)
    requires Produces(tc)
    ensures OneContentPerPath(r, tc.run(r, pre).files)
  {
  }

  function Hitting(w: World, files: map<Path, Bytes>, r: Request, pre: Bytes, entry: Entry, progress: Progress): World {
    World(files, w.store, map[ME := Task(r, Unpacking(pre, entry, progress))], w.puts)
  }

  /** A hit fills one output. */
  lemma {:induction false} FillsNext(tc: Toolchain, w: World, files: map<Path, Bytes>, r: Request, pre: Bytes,
                                     entry: Entry, progress: Progress, name: string, bytes: Bytes)
    returns (events: seq<Event>)
    requires Produces(tc) && progress.open == None
    requires name in r.args.outputs && name !in progress.done && name in entry && entry[name] == bytes
    ensures Quiet(events, ME)
    ensures Reaches(tc, Anything, Hitting(w, files, r, pre, entry, progress), events,
                    Hitting(w, files[r.PathOf(name) := bytes], r, pre, entry, progress.Written(name)))
  {
    var w1 := Hitting(w, files, r, pre, entry, progress);
    var w2;
    events, w2 := FillsOne(tc, Anything, w1, ME, name);
    assert w2 == Hitting(w, files[r.PathOf(name) := bytes], r, pre, entry, progress.Written(name));
  }

  /** A hit fills every output, and no other file. */
  lemma {:induction false} FillsEvery(tc: Toolchain, w: World, files: map<Path, Bytes>, r: Request, pre: Bytes,
                                      entry: Entry, progress: Progress, content: map<string, Bytes>, paths: set<Path>)
    returns (events: seq<Event>, files': map<Path, Bytes>)
    requires Produces(tc) && progress.open == None
    requires content.Keys == r.args.outputs.Keys && OneContentPerPath(r, content) && Supplies(entry, content)
    requires paths == PathsOf(r, content.Keys) && Left(files, r, content, progress)
    ensures Quiet(events, ME)
    ensures Reaches(tc, Anything, Hitting(w, files, r, pre, entry, progress), events,
                    Hitting(w, files', r, pre, entry, Progress(content.Keys, None)))
    ensures Holds(files', r, content) && SameOutside(files, files', paths)
    decreases content.Keys - progress.done
  {
    if name :| name in content && name !in progress.done {
      var first := FillsNext(tc, w, files, r, pre, entry, progress, name, content[name]);
      LeftAfterWriting(files, r, content, progress, name);
      var rest;
      var filled := files[r.PathOf(name) := content[name]];
      rest, files' := FillsEvery(tc, w, filled, r, pre, entry, progress.Written(name), content, paths);
      assert r.PathOf(name) in paths;
      SameOutsideMore(files, files', paths, r.PathOf(name), content[name]);
      Further(tc, Anything, Hitting(w, files, r, pre, entry, progress), first,
              Hitting(w, filled, r, pre, entry, progress.Written(name)), rest,
              Hitting(w, files', r, pre, entry, Progress(content.Keys, None)));
      events := first + rest;
    } else {
      assert progress.done == content.Keys;
      assert progress == Progress(content.Keys, None);
      events, files' := [], files;
    }
  }

  lemma {:induction false} UnpackedEnds(tc: Toolchain, w: World, r: Request, pre: Bytes, entry: Entry, w': World)
    requires Produces(tc)
    requires w.tasks == map[ME := Task(r, Unpacking(pre, entry, Progress(r.args.outputs.Keys, None)))]
    requires
      var output := Output(Some(0), GetStream(entry, STDOUT), GetStream(entry, STDERR));
      w' == w.(tasks := map[ME := Task(r, Finished(pre, CacheHit, output))])
    ensures Reaches(tc, Anything, w, [Unpacked(ME)], w')
  {
    OneStep(tc, Anything, w, Unpacked(ME));
    assert Step(tc, w, Unpacked(ME)).tasks == w'.tasks;
  }

  lemma {:induction false} HitRuns(tc: Toolchain, w: World, r: Request, pre: Bytes, entry: Entry)
    returns (events: seq<Event>, w': World)
    requires Produces(tc) && w.tasks == map[ME := Task(r, Unpacking(pre, entry, NOTHING_YET))]
    requires
      var c := tc.run(r, pre);
      && c.output == Output(Some(0), GetStream(entry, STDOUT), GetStream(entry, STDERR))
      && c.files.Keys == r.args.outputs.Keys && Supplies(entry, c.files)
    ensures Reaches(tc, Anything, w, events, w') && Quiet(events, ME)
    ensures
      var c := tc.run(r, pre);
      && Holds(w'.files, r, c.files) && SameOutside(w.files, w'.files, PathsOf(r, c.files.Keys))
      && w'.tasks == map[ME := Task(r, Finished(pre, CacheHit, c.output))] && w'.puts == w.puts
  {
    var c := tc.run(r, pre);
    RunIsConsistent(tc, r, pre);
    var fills, files' := FillsEvery(tc, w, w.files, r, pre, entry, NOTHING_YET, c.files, PathsOf(r, c.files.Keys));
    assert Hitting(w, w.files, r, pre, entry, NOTHING_YET) == w;
    var w1 := Hitting(w, files', r, pre, entry, Progress(c.files.Keys, None));
    w' := w1.(tasks := map[ME := Task(r, Finished(pre, CacheHit, c.output))]);
    UnpackedEnds(tc, w1, r, pre, entry, w');
    Further(tc, Anything, w, fills, w1, [Unpacked(ME)], w');
    events := fills + [Unpacked(ME)];
  }

  lemma {:induction false} AloneHits(tc: Toolchain, files: map<Path, Bytes>, store: map<Key, Entry>, r: Request,
                                     preprocessed: Output, cacheable: bool, files': map<Path, Bytes>)
    requires Produces(tc) && KeyDetermines(tc) && OutputNames(r.args.outputs.Keys) && preprocessed.Success()
    requires tc.arises(r, preprocessed.stdout) && r.control == Default
    requires KeyOf(tc, r, preprocessed.stdout) in store
    requires PacksACompile(tc, KeyOf(tc, r, preprocessed.stdout), store[KeyOf(tc, r, preprocessed.stdout)])
    requires
      var content := tc.run(r, preprocessed.stdout).files;
      Holds(files', r, content) && SameOutside(files, files', PathsOf(r, content.Keys))
    ensures RunsAlone(tc, files, store, r, preprocessed, true, cacheable,
                      Told(CacheHit, tc.run(r, preprocessed.stdout).output), files', [])
  {
    var pre, c := preprocessed.stdout, tc.run(r, preprocessed.stdout);
    UnpackPacked(tc, r, pre, store[KeyOf(tc, r, pre)]);
    var w := World(files, store, map[ME := Task(r, LookingUp(pre))], map[]);
    var events, w' := LooksUpAndHits(tc, w, r, pre, store[KeyOf(tc, r, pre)], cacheable);
    SameFiles(files, w'.files, files', r, c.files);
    Goes(tc, files, store, r, preprocessed, true, cacheable, Told(CacheHit, c.output), files', [], events, w');
  }

  lemma {:induction false} LooksUpAndHits(tc: Toolchain, w: World, r: Request, pre: Bytes, entry: Entry,
                                          cacheable: bool)
    returns (events: seq<Event>, w': World)
    requires Produces(tc) && w.tasks == map[ME := Task(r, LookingUp(pre))]
    requires KeyOf(tc, r, pre) in w.store && w.store[KeyOf(tc, r, pre)] == entry
    requires
      var c := tc.run(r, pre);
      && c.output == Output(Some(0), GetStream(entry, STDOUT), GetStream(entry, STDERR))
      && c.files.Keys == r.args.outputs.Keys && Supplies(entry, c.files)
    ensures Reaches(tc, Anything, w, events, w') && Alone(events, true, cacheable)
    ensures
      var c := tc.run(r, pre);
      && Holds(w'.files, r, c.files) && SameOutside(w.files, w'.files, PathsOf(r, c.files.Keys))
      && w'.tasks == map[ME := Task(r, Finished(pre, CacheHit, c.output))] && w'.puts == w.puts
  {
    var w1 := w.(tasks := map[ME := Task(r, Unpacking(pre, entry, NOTHING_YET))]);
    LookupHits(tc, w, r, pre, w1);
    var hit;
    hit, w' := HitRuns(tc, w1, r, pre, entry);
    Further(tc, Anything, w, [LookedUp(ME, Found)], w1, hit, w');
    AloneConcat([LookedUp(ME, Found)], hit, true, cacheable);
    events := [LookedUp(ME, Found)] + hit;
  }

  lemma {:induction false} LookupHits(tc: Toolchain, w: World, r: Request, pre: Bytes, w': World)
    requires Produces(tc) && KeyOf(tc, r, pre) in w.store && w.tasks == map[ME := Task(r, LookingUp(pre))]
    requires w' == w.(tasks := map[ME := Task(r, Unpacking(pre, w.store[KeyOf(tc, r, pre)], NOTHING_YET))])
    ensures Reaches(tc, Anything, w, [LookedUp(ME, Found)], w')
  {
    OneStep(tc, Anything, w, LookedUp(ME, Found));
    assert Step(tc, w, LookedUp(ME, Found)).tasks == w'.tasks;
  }

  /** The request is about to run the compiler. */
  lemma {:induction false} AloneCompiles(tc: Toolchain, files: map<Path, Bytes>, store: map<Key, Entry>, r: Request,
                                         pre: Bytes, available: bool, cacheable: bool)
    returns (events: seq<Event>, w: World)
    requires Produces(tc)
    requires r.control == ForceRecache || !available || KeyOf(tc, r, pre) !in store
    ensures
      var start := AfterPreprocess(r, Output(Some(0), pre, []));
      Reaches(tc, Anything, World(files, store, map[ME := Task(r, start)], map[]), events, w)
    ensures Alone(events, available, cacheable)
    ensures w == World(files, store, map[ME := Task(r, Compiling(pre, Miss(r), NOTHING_YET))], map[])
  {
    var w1 := World(files, store, map[ME := Task(r, AfterPreprocess(r, Output(Some(0), pre, [])))], map[]);
    if r.control == ForceRecache {
      events, w := [], w1;
    } else {
      var lookup := LookedUp(ME, if available then Found else NotFound);
      OneStep(tc, Anything, w1, lookup);
      w := Step(tc, w1, lookup);
      events := [lookup];
      assert w.tasks == map[ME := Task(r, Compiling(pre, Miss(r), NOTHING_YET))];
    }
  }

  function MissResult(r: Request, output: Output, cacheable: bool): CompileResult {
    if !output.Success() then CompileFailed else if !cacheable then NotCacheable else CacheMiss(Miss(r))
  }

  /** The compiler writes every output, and no other file. */
  lemma {:induction false} WritesEvery(tc: Toolchain, w: World, content: map<string, Bytes>, paths: set<Path>)
    returns (events: seq<Event>, w': World)
    requires Produces(tc) && ME in w.tasks && w.tasks[ME].phase.Compiling? && w.tasks[ME].phase.progress.open == None
    requires content == tc.run(w.tasks[ME].request, w.tasks[ME].phase.pre).files
    requires paths == PathsOf(w.tasks[ME].request, content.Keys)
    requires Left(w.files, w.tasks[ME].request, content, w.tasks[ME].phase.progress)
    ensures
      var r, phase := w.tasks[ME].request, w.tasks[ME].phase;
      && Reaches(tc, Anything, w, events, w') && Quiet(events, ME)
      && Moves(w, ME, Compiling(phase.pre, phase.missType, Progress(content.Keys, None)), w')
      && Holds(w'.files, r, content) && SameOutside(w.files, w'.files, paths)
    decreases content.Keys - w.tasks[ME].phase.progress.done
  {
    var r, phase := w.tasks[ME].request, w.tasks[ME].phase;
    if name :| name in content && name !in phase.progress.done {
      var w1 := WritesOne(tc, Anything, w, ME, name);
      var rest;
      rest, w' := WritesEvery(tc, w1, content, paths);
      assert r.PathOf(name) in paths;
      SameOutsideMore(w.files, w'.files, paths, r.PathOf(name), content[name]);
      Further(tc, Anything, w, [Write(ME, name)], w1, rest, w');
      events := [Write(ME, name)] + rest;
    } else {
      assert phase.progress.done == content.Keys;
      events, w' := [], w;
    }
  }

  lemma {:induction false} ExitEnds(tc: Toolchain, w: World, r: Request, pre: Bytes, cacheable: bool, w': World)
    requires Produces(tc)
    requires w.tasks == map[ME := Task(r, Compiling(pre, Miss(r), Progress(tc.run(r, pre).files.Keys, None)))]
    requires w' == w.(tasks := map[ME := Task(r, AfterRun(pre, Miss(r), cacheable, tc.run(r, pre).output))])
    ensures Reaches(tc, Anything, w, [Exit(ME, cacheable)], w')
  {
    OneStep(tc, Anything, w, Exit(ME, cacheable));
    assert Step(tc, w, Exit(ME, cacheable)).tasks == w'.tasks;
  }

  /** The compiler runs and exits. */
  lemma {:induction false} AloneExits(tc: Toolchain, w: World, r: Request, pre: Bytes, cacheable: bool)
    returns (events: seq<Event>, w': World)
    requires Produces(tc) && w.tasks == map[ME := Task(r, Compiling(pre, Miss(r), NOTHING_YET))]
    ensures Reaches(tc, Anything, w, events, w') && w'.puts == w.puts
    ensures forall available :: Alone(events, available, cacheable)
    ensures
      var c := tc.run(r, pre);
      && Holds(w'.files, r, c.files) && SameOutside(w.files, w'.files, PathsOf(r, c.files.Keys))
      && w'.tasks == map[ME := Task(r, AfterRun(pre, Miss(r), cacheable, c.output))]
  {
    var content := tc.run(r, pre).files;
    var writes, w1 := WritesEvery(tc, w, content, PathsOf(r, content.Keys));
    w' := w1.(tasks := map[ME := Task(r, AfterRun(pre, Miss(r), cacheable, tc.run(r, pre).output))]);
    ExitEnds(tc, w1, r, pre, cacheable, w');
    Further(tc, Anything, w, writes, w1, [Exit(ME, cacheable)], w');
    events := writes + [Exit(ME, cacheable)];
    forall available ensures Alone(events, available, cacheable) {
      AloneConcat(writes, [Exit(ME, cacheable)], available, cacheable);
    }
  }

  /** A cacheable success is packed. */
  lemma {:induction false} AloneFinishes(tc: Toolchain, w: World, r: Request, pre: Bytes, cacheable: bool)
    returns (events: seq<Event>, w': World)
    requires Produces(tc) && w.puts == map[] && w.tasks == map[ME := Task(r, Compiling(pre, Miss(r), NOTHING_YET))]
    ensures Reaches(tc, Anything, w, events, w')
    ensures forall available :: Alone(events, available, cacheable)
    ensures
      var c := tc.run(r, pre);
      var result := MissResult(r, c.output, cacheable);
      && Holds(w'.files, r, c.files) && SameOutside(w.files, w'.files, PathsOf(r, c.files.Keys))
      && w'.tasks == map[ME := Task(r, Finished(pre, result, c.output))]
      && w'.puts == if result.CacheMiss? then map[ME := Put(KeyOf(tc, r, pre), PackedEntry(c))] else map[]
  {
    var c := tc.run(r, pre);
    events, w' := AloneExits(tc, w, r, pre, cacheable);
    if c.output.Success() && cacheable {
      var exits, w1 := events, w';
      var packs;
      packs, w' := AlonePacks(tc, w1, r, pre);
      Further(tc, Anything, w, exits, w1, packs, w');
      events := exits + packs;
      forall available ensures Alone(events, available, cacheable) { AloneConcat(exits, packs, available, cacheable); }
    }
  }

  lemma {:induction false} HeldPaths(files: map<Path, Bytes>, r: Request, content: map<string, Bytes>)
    requires content.Keys == r.args.outputs.Keys && Holds(files, r, content)
    ensures r.Paths() <= files.Keys
  {
    forall p | p in r.Paths() ensures p in files {
      var name :| name in r.args.outputs && r.PathOf(name) == p;
      assert name in content;
    }
  }

  lemma {:induction false} GatheredHeld(r: Request, files: map<Path, Bytes>, content: map<string, Bytes>, entry: Entry)
    requires content.Keys == r.args.outputs.Keys && Holds(files, r, content) && Gathered(r, files, map[], entry)
    ensures entry == content
  {
    forall name | name in content ensures entry[name] == content[name] { assert name in r.args.outputs; }
  }

  lemma {:induction false} AlonePacks(tc: Toolchain, w: World, r: Request, pre: Bytes)
    returns (events: seq<Event>, w': World)
    requires Produces(tc) && ME in w.tasks && tc.run(r, pre).output.Success() && Holds(w.files, r, tc.run(r, pre).files)
    requires w.tasks[ME] == Task(r, Packing(pre, Miss(r), tc.run(r, pre).output, map[]))
    ensures Reaches(tc, Anything, w, events, w') && Quiet(events, ME) && w'.files == w.files
    ensures w'.tasks == w.tasks[ME := Task(r, Finished(pre, CacheMiss(Miss(r)), tc.run(r, pre).output))]
    ensures w'.puts == w.puts[ME := Put(KeyOf(tc, r, pre), PackedEntry(tc.run(r, pre)))]
  {
    var content := tc.run(r, pre).files;
    HeldPaths(w.files, r, content);
    var reading, w1, entry := ReadsAll(tc, Anything, w, ME);
    GatheredHeld(r, w.files, content, entry);
    w' := PacksRead(tc, Anything, w1, ME, r, pre, entry);
    Further(tc, Anything, w, reading, w1, [Packed(ME)], w');
    events := reading + [Packed(ME)];
  }

  lemma {:induction false} AloneMisses(tc: Toolchain, files: map<Path, Bytes>, store: map<Key, Entry>, r: Request,
                                       preprocessed: Output, available: bool, cacheable: bool,
                                       files': map<Path, Bytes>)
    requires Produces(tc) && OutputNames(r.args.outputs.Keys) && preprocessed.Success()
    requires tc.arises(r, preprocessed.stdout)
    requires r.control == ForceRecache || !available || KeyOf(tc, r, preprocessed.stdout) !in store
    requires
      var content := tc.run(r, preprocessed.stdout).files;
      Holds(files', r, content) && SameOutside(files, files', PathsOf(r, content.Keys))
    ensures
      var c := tc.run(r, preprocessed.stdout);
      var result := MissResult(r, c.output, cacheable);
      RunsAlone(tc, files, store, r, preprocessed, available, cacheable, Told(result, c.output), files',
                if result.CacheMiss? then [Put(KeyOf(tc, r, preprocessed.stdout), PackedEntry(c))] else [])
  {
    var pre, c := preprocessed.stdout, tc.run(r, preprocessed.stdout);
    var result := MissResult(r, c.output, cacheable);
    var start := World(files, store, map[ME := Task(r, AfterPreprocess(r, preprocessed))], map[]);
    var first, w1 := AloneCompiles(tc, files, store, r, pre, available, cacheable);
    var rest, w2 := AloneFinishes(tc, w1, r, pre, cacheable);
    Further(tc, Anything, start, first, w1, rest, w2);
    SameFiles(files, w2.files, files', r, c.files);
    AloneConcat(first, rest, available, cacheable);
    Goes(tc, files, store, r, preprocessed, available, cacheable, Told(result, c.output), files',
         if result.CacheMiss? then [Put(KeyOf(tc, r, pre), PackedEntry(c))] else [], first + rest, w2);
  }
}
