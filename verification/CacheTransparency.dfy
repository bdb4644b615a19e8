/** The cache agrees with the compiler it stands in for, over every
    interleaving. */
module CacheTransparency {
  import opened CompilerArguments
  import opened Options
  import opened Octets
  import opened CachedCompile

  // ----- Output files -----

  /** The output files of `r` hold exactly `content`. */
  ghost predicate Holds(files: map<Path, Bytes>, r: Request, content: map<string, Bytes>)
    requires content.Keys <= r.args.outputs.Keys
  {
    forall name :: name in content ==> r.PathOf(name) in files && files[r.PathOf(name)] == content[name]
  }

  /** Nothing has changed outside these paths. */
  ghost predicate SameOutside(files: map<Path, Bytes>, files': map<Path, Bytes>, paths: set<Path>) {
    forall p :: p !in paths ==>
      (p in files <==> p in files') && (p in files && p in files' ==> files'[p] == files[p])
  }

  /** The files of these outputs. */
  function PathsOf(r: Request, names: set<string>): set<Path> {
    set name | name in names && name in r.args.outputs :: r.PathOf(name)
  }

  lemma {:induction false} SameOutsideWider(files: map<Path, Bytes>, files': map<Path, Bytes>, r: Request,
                                            names: set<string>)
    requires SameOutside(files, files', PathsOf(r, names))
    ensures SameOutside(files, files', r.Paths())
  {
    assert PathsOf(r, names) <= r.Paths();
  }

  lemma {:induction false} SameOutsideMore(files: map<Path, Bytes>, files': map<Path, Bytes>, paths: set<Path>, p: Path,
                                           bytes: Bytes)
    requires p in paths && SameOutside(files[p := bytes], files', paths)
    ensures SameOutside(files, files', paths)
  {
  }

  ghost predicate OneContentPerPath(r: Request, content: map<string, Bytes>)
    requires content.Keys <= r.args.outputs.Keys
  {
    forall a, b :: a in content && b in content && r.PathOf(a) == r.PathOf(b) ==> content[a] == content[b]
  }

  /** The output files complete so far hold their content, but for the file that
      is open. */
  ghost predicate Left(files: map<Path, Bytes>, r: Request, content: map<string, Bytes>, progress: Progress)
    requires content.Keys <= r.args.outputs.Keys
  {
    && progress.done <= content.Keys
    && (progress.open.Some? ==> progress.open.value in content)
    && forall name :: name in progress.done ==>
         || (progress.open.Some? && r.PathOf(progress.open.value) == r.PathOf(name))
         || (r.PathOf(name) in files && files[r.PathOf(name)] == content[name])
  }

  lemma {:induction false} LeftAfterOpening(files: map<Path, Bytes>, r: Request, content: map<string, Bytes>,
                                            progress: Progress, name: string)
    requires content.Keys <= r.args.outputs.Keys && Left(files, r, content, progress)
    requires progress.open == None && name in content
    ensures Left(files[r.PathOf(name) := []], r, content, progress.Opened(name))
  {
  }

  lemma {:induction false} LeftAfterWriting(files: map<Path, Bytes>, r: Request, content: map<string, Bytes>,
                                            progress: Progress, name: string)
    requires content.Keys <= r.args.outputs.Keys && Left(files, r, content, progress)
    requires OneContentPerPath(r, content)
    requires name in content && (progress.open == None || progress.open == Some(name))
    ensures Left(files[r.PathOf(name) := content[name]], r, content, progress.Written(name))
  {
  }

  // ----- What a stored entry is -----

  /** The cache entry that stands for one successful compile. */
  function PackedEntry(c: Compiled): Entry {
    PutStreams(c.files, c.output)
  }

  ghost predicate PacksACompile(tc: Toolchain, key: Key, entry: Entry) {
    exists r: Request, pre: Bytes :: PacksThis(tc, key, entry, r, pre)
  }

  ghost predicate PacksThis(tc: Toolchain, key: Key, entry: Entry, r: Request, pre: Bytes) {
    && tc.arises(r, pre) && KeyOf(tc, r, pre) == key
    && OutputNames(r.args.outputs.Keys)
    && tc.run(r, pre).output.Success()
    && entry == PackedEntry(tc.run(r, pre))
  }

  /** Stream objects never collide with output objects. */
  lemma {:induction false} StreamNamesApart(names: set<string>)
    requires OutputNames(names)
    ensures STDOUT !in names && STDERR !in names && STDOUT != STDERR
  {
    assert |OBJ| == 3 && |DWO| == 3 && |PDB| == 3;
    assert |STDOUT| == 6 && STDOUT[3] != STDERR[3];
  }

  lemma {:induction false} PackedStreams(files: map<string, Bytes>, output: Output)
    requires STDOUT !in files && STDERR !in files && STDOUT != STDERR
    ensures
      var entry := PutStreams(files, output);
      && GetStream(entry, STDOUT) == output.stdout
      && GetStream(entry, STDERR) == output.stderr
      && forall name :: name in files ==> name in entry && entry[name] == files[name]
  {
  }

  /** Unpacking an entry gives back the compile that was packed. */
  lemma {:induction false} UnpackPacked(tc: Toolchain, r: Request, pre: Bytes, entry: Entry)
    requires Produces(tc) && KeyDetermines(tc)
    requires tc.arises(r, pre) && PacksACompile(tc, KeyOf(tc, r, pre), entry)
    ensures
      var c := tc.run(r, pre);
      && c.output == Output(Some(0), GetStream(entry, STDOUT), GetStream(entry, STDERR))
      && c.files.Keys == r.args.outputs.Keys
      && forall name :: name in c.files ==> name in entry && entry[name] == c.files[name]
  {
    var r': Request, pre': Bytes :| PacksThis(tc, KeyOf(tc, r, pre), entry, r', pre');
    var c := tc.run(r, pre);
    assert c == tc.run(r', pre') && r.args.outputs.Keys == r'.args.outputs.Keys;
    StreamNamesApart(r.args.outputs.Keys);
    PackedStreams(c.files, c.output);
  }

  // ----- The invariant -----

  ghost predicate TaskOk(tc: Toolchain, files: map<Path, Bytes>, t: Task)
    requires Produces(tc)
  {
    && OutputNames(t.request.args.outputs.Keys)
    && match t.phase
       case LookingUp(pre) => tc.arises(t.request, pre) && t.request.control == Default
       case Unpacking(pre, entry, progress) =>
         && tc.arises(t.request, pre) && t.request.control == Default
         && PacksACompile(tc, KeyOf(tc, t.request, pre), entry)
         && Left(files, t.request, tc.run(t.request, pre).files, progress)
       case Compiling(pre, _, progress) =>
         tc.arises(t.request, pre) && Left(files, t.request, tc.run(t.request, pre).files, progress)
       case Packing(pre, _, output, entry) =>
         var c := tc.run(t.request, pre);
         && tc.arises(t.request, pre) && output == c.output && output.Success()
         && Holds(files, t.request, c.files)
         && forall name :: name in entry ==> name in c.files && entry[name] == c.files[name]
       case Finished(pre, result, output) =>
         output == tc.run(t.request, pre).output && (result.CompileFailed? <==> !output.Success())
       case _ => true
  }

  ghost predicate Compatible(tc: Toolchain, tasks: map<Id, Task>)
    requires Produces(tc)
  {
    forall a, b :: a in tasks && b in tasks && a != b && tasks[a].Active() && tasks[b].Active()
                   ==> NeverClash(tc, tasks[a].request, tasks[b].request)
  }

  /** Every stored or pending entry packs a successful compile for its key, and
      every request under way is consistent with the compiler. */
  ghost predicate Inv(tc: Toolchain, w: World)
    requires Produces(tc)
  {
    && (forall key :: key in w.store ==> PacksACompile(tc, key, w.store[key]))
    && (forall id :: id in w.puts ==> PacksACompile(tc, w.puts[id].key, w.puts[id].entry))
    && (forall id :: id in w.tasks ==> TaskOk(tc, w.files, w.tasks[id]))
    && Compatible(tc, w.tasks)
  }

  /** What a request that has just finished gives its client is what running
      the compiler would have given. */
  ghost predicate LikeDirect(tc: Toolchain, w: World, id: Id)
    requires Produces(tc)
  {
    id in w.tasks && w.tasks[id].phase.Finished? &&
    var r, pre := w.tasks[id].request, w.tasks[id].phase.pre;
    w.tasks[id].phase.output == tc.run(r, pre).output && Holds(w.files, r, tc.run(r, pre).files)
  }

  // ----- Writing one output -----

  /** What a request may put in the file of an output: its content, or nothing
      for a while. */
  ghost predicate MayWrite(tc: Toolchain, r: Request, pre: Bytes, name: string, bytes: Bytes) {
    name in tc.run(r, pre).files &&
    (bytes == tc.run(r, pre).files[name] || (bytes == [] && (tc.inPlace || Unpackable(tc, r, pre))))
  }

  /** It is no different for another request that it cannot clash with. */
  lemma {:induction false} SameForOthers(tc: Toolchain, r: Request, pre: Bytes, name: string, bytes: Bytes,
                                         r': Request, pre': Bytes, b: string)
    requires Produces(tc) && NeverClash(tc, r', r) && tc.arises(r, pre) && tc.arises(r', pre')
    requires MayWrite(tc, r, pre, name, bytes) && b in tc.run(r', pre').files
    ensures r'.PathOf(b) == r.PathOf(name) ==> bytes == tc.run(r', pre').files[b]
  {
    assert !Clash(tc, r', pre', r, pre);
  }

  lemma {:induction false} OtherLeft(tc: Toolchain, files: map<Path, Bytes>, r: Request, pre: Bytes, name: string,
                                     bytes: Bytes, r': Request, pre': Bytes, progress: Progress)
    requires Produces(tc) && NeverClash(tc, r', r) && tc.arises(r, pre) && tc.arises(r', pre')
    requires MayWrite(tc, r, pre, name, bytes) && Left(files, r', tc.run(r', pre').files, progress)
    ensures Left(files[r.PathOf(name) := bytes], r', tc.run(r', pre').files, progress)
  {
    forall b | b in progress.done ensures r'.PathOf(b) == r.PathOf(name) ==> bytes == tc.run(r', pre').files[b] {
      SameForOthers(tc, r, pre, name, bytes, r', pre', b);
    }
  }

  lemma {:induction false} OtherHolds(tc: Toolchain, files: map<Path, Bytes>, r: Request, pre: Bytes, name: string,
                                      bytes: Bytes, r': Request, pre': Bytes)
    requires Produces(tc) && NeverClash(tc, r', r) && tc.arises(r, pre) && tc.arises(r', pre')
    requires MayWrite(tc, r, pre, name, bytes) && Holds(files, r', tc.run(r', pre').files)
    ensures Holds(files[r.PathOf(name) := bytes], r', tc.run(r', pre').files)
  {
    forall b | b in tc.run(r', pre').files
      ensures r'.PathOf(b) == r.PathOf(name) ==> bytes == tc.run(r', pre').files[b]
    {
      SameForOthers(tc, r, pre, name, bytes, r', pre', b);
    }
  }

  /** Writing an output of one request does not disturb the others. */
  lemma {:induction false} OthersUndisturbed(tc: Toolchain, w: World, id: Id, pre: Bytes, name: string, bytes: Bytes)
    requires Produces(tc) && Inv(tc, w)
    requires id in w.tasks && w.tasks[id].Active() && tc.arises(w.tasks[id].request, pre)
    requires MayWrite(tc, w.tasks[id].request, pre, name, bytes)
    ensures
      var files' := w.files[w.tasks[id].request.PathOf(name) := bytes];
      forall other :: other in w.tasks && other != id ==> TaskOk(tc, files', w.tasks[other])
  {
    var r := w.tasks[id].request;
    forall other | other in w.tasks && other != id
      ensures TaskOk(tc, w.files[r.PathOf(name) := bytes], w.tasks[other])
    {
      var t := w.tasks[other];
      assert TaskOk(tc, w.files, t);
      if t.phase.Packing? {
        OtherHolds(tc, w.files, r, pre, name, bytes, t.request, t.phase.pre);
      } else if t.phase.Unpacking? || t.phase.Compiling? {
        OtherLeft(tc, w.files, r, pre, name, bytes, t.request, t.phase.pre, t.phase.progress);
      }
    }
  }

  lemma {:induction false} WriteMoves(tc: Toolchain, w: World, id: Id, pre: Bytes, name: string, bytes: Bytes,
                                      phase: Phase)
    requires Produces(tc) && Inv(tc, w)
    requires id in w.tasks && w.tasks[id].Active() && tc.arises(w.tasks[id].request, pre)
    requires MayWrite(tc, w.tasks[id].request, pre, name, bytes)
    requires TaskOk(tc, w.files[w.tasks[id].request.PathOf(name) := bytes], w.tasks[id].(phase := phase))
    ensures Inv(tc, WriteTo(w, id, name, bytes, phase))
  {
    OthersUndisturbed(tc, w, id, pre, name, bytes);
  }

  lemma {:induction false} TaskMoves(tc: Toolchain, w: World, id: Id, phase: Phase)
    requires Produces(tc) && Inv(tc, w)
    requires id in w.tasks && w.tasks[id].Active()
    requires TaskOk(tc, w.files, w.tasks[id].(phase := phase))
    ensures Inv(tc, To(w, id, phase))
  {
  }

  // ----- Unpacking -----

  lemma {:induction false} CreateKeepsInv(tc: Toolchain, w: World, id: Id, name: string)
    requires Produces(tc) && KeyDetermines(tc) && Inv(tc, w) && Enabled(tc, w, Create(id, name))
    ensures Inv(tc, Step(tc, w, Create(id, name)))
  {
    var t := w.tasks[id];
    assert TaskOk(tc, w.files, t);
    UnpackPacked(tc, t.request, t.phase.pre, t.phase.entry);
    LeftAfterOpening(w.files, t.request, tc.run(t.request, t.phase.pre).files, t.phase.progress, name);
    WriteMoves(tc, w, id, t.phase.pre, name, [],
               Unpacking(t.phase.pre, t.phase.entry, t.phase.progress.Opened(name)));
  }

  lemma {:induction false} FillKeepsInv(tc: Toolchain, w: World, id: Id)
    requires Produces(tc) && KeyDetermines(tc) && Inv(tc, w) && Enabled(tc, w, Fill(id))
    ensures Inv(tc, Step(tc, w, Fill(id))) && !Step(tc, w, Fill(id)).tasks[id].phase.Finished?
  {
    var t := w.tasks[id];
    var name := t.phase.progress.open.value;
    assert TaskOk(tc, w.files, t);
    UnpackPacked(tc, t.request, t.phase.pre, t.phase.entry);
    LeftAfterWriting(w.files, t.request, tc.run(t.request, t.phase.pre).files, t.phase.progress, name);
    WriteMoves(tc, w, id, t.phase.pre, name, t.phase.entry[name],
               Unpacking(t.phase.pre, t.phase.entry, t.phase.progress.Written(name)));
  }

  /** A hit that is unpacked to the end is answered as by a direct compile. */
  lemma {:induction false} UnpackKeepsInv(tc: Toolchain, w: World, id: Id)
    requires Produces(tc) && KeyDetermines(tc) && Inv(tc, w) && Enabled(tc, w, Unpacked(id))
    ensures Inv(tc, Step(tc, w, Unpacked(id))) && LikeDirect(tc, Step(tc, w, Unpacked(id)), id)
  {
    var t := w.tasks[id];
    assert TaskOk(tc, w.files, t);
    UnpackPacked(tc, t.request, t.phase.pre, t.phase.entry);
    TaskMoves(tc, w, id, Finished(t.phase.pre, CacheHit, tc.run(t.request, t.phase.pre).output));
  }

  // ----- Compiling -----

  lemma {:induction false} TruncateKeepsInv(tc: Toolchain, w: World, id: Id, name: string)
    requires Produces(tc) && Inv(tc, w) && Enabled(tc, w, Truncate(id, name))
    ensures Inv(tc, Step(tc, w, Truncate(id, name)))
  {
    var t := w.tasks[id];
    assert TaskOk(tc, w.files, t);
    LeftAfterOpening(w.files, t.request, tc.run(t.request, t.phase.pre).files, t.phase.progress, name);
    WriteMoves(tc, w, id, t.phase.pre, name, [],
               Compiling(t.phase.pre, t.phase.missType, t.phase.progress.Opened(name)));
  }

  lemma {:induction false} WriteKeepsInv(tc: Toolchain, w: World, id: Id, name: string)
    requires Produces(tc) && Inv(tc, w) && Enabled(tc, w, Write(id, name))
    ensures Inv(tc, Step(tc, w, Write(id, name)))
  {
    var t := w.tasks[id];
    var c := tc.run(t.request, t.phase.pre);
    assert TaskOk(tc, w.files, t);
    LeftAfterWriting(w.files, t.request, c.files, t.phase.progress, name);
    WriteMoves(tc, w, id, t.phase.pre, name, c.files[name],
               Compiling(t.phase.pre, t.phase.missType, t.phase.progress.Written(name)));
  }

  /** A compiler that has exited has left its outputs; failed and non-cacheable
      runs are answered then. */
  lemma {:induction false} ExitKeepsInv(tc: Toolchain, w: World, id: Id, cacheable: bool)
    requires Produces(tc) && Inv(tc, w) && Enabled(tc, w, Exit(id, cacheable))
    ensures
      var w' := Step(tc, w, Exit(id, cacheable));
      Inv(tc, w') && (w'.tasks[id].phase.Finished? ==> LikeDirect(tc, w', id))
  {
    var t := w.tasks[id];
    assert TaskOk(tc, w.files, t);
    assert Holds(w.files, t.request, tc.run(t.request, t.phase.pre).files);
    TaskMoves(tc, w, id, AfterRun(t.phase.pre, t.phase.missType, cacheable, tc.run(t.request, t.phase.pre).output));
  }

  // ----- Packing -----

  lemma {:induction false} ReadKeepsInv(tc: Toolchain, w: World, id: Id, name: string)
    requires Produces(tc) && Inv(tc, w) && Enabled(tc, w, Read(id, name))
    ensures Inv(tc, Step(tc, w, Read(id, name)))
  {
    var t := w.tasks[id];
    assert TaskOk(tc, w.files, t);
    assert name in tc.run(t.request, t.phase.pre).files;
    TaskMoves(tc, w, id, Step(tc, w, Read(id, name)).tasks[id].phase);
  }

  lemma {:induction false} PutJoins(tc: Toolchain, w: World, id: Id, put: Put)
    requires Produces(tc) && Inv(tc, w) && PacksACompile(tc, put.key, put.entry)
    ensures Inv(tc, w.(puts := w.puts[id := put]))
  {
  }

  /** What was read from the output files, one after the other, packs this
      request's own compile. */
  lemma {:induction false} PackKeepsInv(tc: Toolchain, w: World, id: Id)
    requires Produces(tc) && Inv(tc, w) && Enabled(tc, w, Packed(id))
    ensures
      var w' := Step(tc, w, Packed(id));
      Inv(tc, w') && LikeDirect(tc, w', id)
  {
    var t := w.tasks[id];
    var c := tc.run(t.request, t.phase.pre);
    assert TaskOk(tc, w.files, t);
    assert t.phase.entry == c.files;
    var put := Put(KeyOf(tc, t.request, t.phase.pre), PutStreams(c.files, c.output));
    assert PacksThis(tc, put.key, put.entry, t.request, t.phase.pre);
    PutJoins(tc, w, id, put);
    TaskMoves(tc, w.(puts := w.puts[id := put]), id,
              Finished(t.phase.pre, CacheMiss(t.phase.missType), t.phase.output));
  }

  // ----- Any step -----

  lemma {:induction false} ClashIsMutual(tc: Toolchain, r: Request, r': Request)
    requires Produces(tc) && NeverClash(tc, r, r')
    ensures NeverClash(tc, r', r)
  {
    forall pre, pre' | tc.arises(r', pre) && tc.arises(r, pre') ensures !Clash(tc, r', pre, r, pre') {
      assert !Clash(tc, r, pre', r', pre);
    }
  }

  lemma {:induction false} StartStep(tc: Toolchain, policy: Policy, w: World, id: Id, r: Request)
    requires Produces(tc) && Coherent(tc, policy) && Inv(tc, w)
    requires Enabled(tc, w, Start(id, r)) && Admissible(tc, policy, w, Start(id, r))
    ensures Inv(tc, Step(tc, w, Start(id, r)))
  {
    forall other | other in w.tasks && w.tasks[other].Active()
      ensures NeverClash(tc, w.tasks[other].request, r) && NeverClash(tc, r, w.tasks[other].request)
    {
      assert TaskOk(tc, w.files, w.tasks[other]);
      ClashIsMutual(tc, w.tasks[other].request, r);
    }
  }

  predicate Waits(e: Event) { e.Preprocessed? || e.LookedUp? || e.Abort? }

  lemma {:induction false} WaitingStep(tc: Toolchain, policy: Policy, w: World, e: Event)
    requires Produces(tc) && Inv(tc, w) && Enabled(tc, w, e) && Admissible(tc, policy, w, e) && Waits(e)
    ensures Inv(tc, Step(tc, w, e)) && !Step(tc, w, e).tasks[e.id].phase.Finished?
  {
    assert TaskOk(tc, w.files, w.tasks[e.id]);
    TaskMoves(tc, w, e.id, Step(tc, w, e).tasks[e.id].phase);
  }

  lemma {:induction false} StoreStep(tc: Toolchain, w: World, e: Event)
    requires Produces(tc) && Inv(tc, w) && Enabled(tc, w, e)
    requires e.PutDone? || e.Drop? || e.Restart?
    ensures Inv(tc, Step(tc, w, e))
  {
  }

  /** The event belongs to a request, which it may finish. */
  predicate OfRequest(e: Event) { !e.Drop? && !e.Restart? && !e.PutDone? }

  /** The step keeps the invariant, and answers well whatever it finishes. */
  ghost predicate StepOk(tc: Toolchain, w: World, e: Event)
    requires Produces(tc) && Enabled(tc, w, e)
  {
    var w' := Step(tc, w, e);
    && Inv(tc, w')
    && (OfRequest(e) && e.id in w'.tasks && w'.tasks[e.id].phase.Finished? ==> LikeDirect(tc, w', e.id))
  }

  lemma {:induction false} UnpackingStep(tc: Toolchain, w: World, e: Event)
    requires Produces(tc) && KeyDetermines(tc) && Inv(tc, w) && Enabled(tc, w, e)
    requires e.Create? || e.Fill? || e.Unpacked?
    ensures StepOk(tc, w, e)
  {
    match e
    case Create(id, name) => CreateKeepsInv(tc, w, id, name);
    case Fill(id) => FillKeepsInv(tc, w, id);
    case Unpacked(id) => UnpackKeepsInv(tc, w, id);
  }

  lemma {:induction false} CompilingStep(tc: Toolchain, w: World, e: Event)
    requires Produces(tc) && Inv(tc, w) && Enabled(tc, w, e)
    requires e.Truncate? || e.Write? || e.Exit?
    ensures StepOk(tc, w, e)
  {
    match e
    case Truncate(id, name) => TruncateKeepsInv(tc, w, id, name);
    case Write(id, name) => WriteKeepsInv(tc, w, id, name);
    case Exit(id, cacheable) => ExitKeepsInv(tc, w, id, cacheable);
  }

  lemma {:induction false} PackingStep(tc: Toolchain, w: World, e: Event)
    requires Produces(tc) && Inv(tc, w) && Enabled(tc, w, e)
    requires e.Read? || e.Packed?
    ensures StepOk(tc, w, e)
  {
    match e
    case Read(id, name) => ReadKeepsInv(tc, w, id, name);
    case Packed(id) => PackKeepsInv(tc, w, id);
  }

  lemma {:induction false} OtherStep(tc: Toolchain, policy: Policy, w: World, e: Event)
    requires Produces(tc) && Coherent(tc, policy) && Inv(tc, w)
    requires Enabled(tc, w, e) && Admissible(tc, policy, w, e)
    requires e.Start? || Waits(e) || !OfRequest(e)
    ensures StepOk(tc, w, e)
  {
    if e.Start? {
      StartStep(tc, policy, w, e.id, e.request);
    } else if Waits(e) {
      WaitingStep(tc, policy, w, e);
    } else {
      StoreStep(tc, w, e);
    }
  }

  lemma {:induction false} StepKeepsInv(tc: Toolchain, policy: Policy, w: World, e: Event)
    requires Produces(tc) && KeyDetermines(tc) && Coherent(tc, policy) && Inv(tc, w)
    requires Enabled(tc, w, e) && Admissible(tc, policy, w, e)
    ensures StepOk(tc, w, e)
  {
    if e.Create? || e.Fill? || e.Unpacked? {
      UnpackingStep(tc, w, e);
    } else if e.Truncate? || e.Write? || e.Exit? {
      CompilingStep(tc, w, e);
    } else if e.Read? || e.Packed? {
      PackingStep(tc, w, e);
    } else {
      OtherStep(tc, policy, w, e);
    }
  }

  /** The requests that a step finishes. */
  predicate FinishedBy(w: World, w': World, id: Id) {
    id in w'.tasks && w'.tasks[id].phase.Finished? && !(id in w.tasks && w.tasks[id].phase.Finished?)
  }

  lemma {:induction false} OnlyItsOwnTask(tc: Toolchain, w: World, e: Event, id: Id)
    requires Produces(tc) && Enabled(tc, w, e) && FinishedBy(w, Step(tc, w, e), id)
    ensures OfRequest(e) && id == e.id
  {
  }

  /** One step keeps the invariant, and a request that finishes in it is
      answered as by a direct compile. */
  lemma {:induction false} StepIsTransparent(tc: Toolchain, policy: Policy, w: World, e: Event)
    requires Produces(tc) && KeyDetermines(tc) && Coherent(tc, policy) && Inv(tc, w)
    requires Enabled(tc, w, e) && Admissible(tc, policy, w, e)
    ensures Inv(tc, Step(tc, w, e))
    ensures forall id :: FinishedBy(w, Step(tc, w, e), id) ==> LikeDirect(tc, Step(tc, w, e), id)
  {
    StepKeepsInv(tc, policy, w, e);
    forall id | FinishedBy(w, Step(tc, w, e), id) ensures LikeDirect(tc, Step(tc, w, e), id) {
      OnlyItsOwnTask(tc, w, e, id);
    }
  }

  ghost predicate TransparentThroughout(tc: Toolchain, w: World, events: seq<Event>)
    requires Produces(tc) && IsRun(tc, w, events)
    decreases |events|
  {
    events != [] ==>
      var w' := Step(tc, w, events[0]);
      && (forall id :: FinishedBy(w, w', id) ==> LikeDirect(tc, w', id))
      && TransparentThroughout(tc, w', events[1..])
  }

  lemma {:induction false} RunKeepsInv(tc: Toolchain, policy: Policy, w: World, events: seq<Event>)
    requires Produces(tc) && KeyDetermines(tc) && Coherent(tc, policy) && Inv(tc, w)
    requires IsRun(tc, w, events) && AdmissibleRun(tc, policy, w, events)
    ensures Inv(tc, Run(tc, w, events)) && TransparentThroughout(tc, w, events)
    decreases |events|
  {
    if events != [] {
      StepIsTransparent(tc, policy, w, events[0]);
      RunKeepsInv(tc, policy, Step(tc, w, events[0]), events[1..]);
    }
  }

  /** Whatever earlier daemons left in the store packs compiles. */
  ghost predicate StoreOk(tc: Toolchain, store: map<Key, Entry>) {
    forall key :: key in store ==> PacksACompile(tc, key, store[key])
  }

  /** Cache transparency. In every interleaved run of lookups, compiles, forced
      recaches, delayed puts and restarts, over a store that may drop any entry
      at any time, every request that completes after a successful preprocess
      returns the status, streams and output files that a direct compile gives;
      and whatever is in the store, or on its way there, packs a successful
      compile for its key. */
  lemma {:induction false} CacheTransparent(tc: Toolchain, policy: Policy, files: map<Path, Bytes>,
                                            store: map<Key, Entry>, events: seq<Event>)
    requires Produces(tc) && KeyDetermines(tc) && Coherent(tc, policy) && StoreOk(tc, store)
    requires IsRun(tc, Initial(files, store), events) && AdmissibleRun(tc, policy, Initial(files, store), events)
    ensures TransparentThroughout(tc, Initial(files, store), events)
    ensures
      var w := Run(tc, Initial(files, store), events);
      && StoreOk(tc, w.store)
      && (forall id :: id in w.tasks && w.tasks[id].phase.Finished?
                       ==> w.tasks[id].phase.output == tc.run(w.tasks[id].request, w.tasks[id].phase.pre).output)
  {
    RunKeepsInv(tc, policy, Initial(files, store), events);
    var w := Run(tc, Initial(files, store), events);
    forall id | id in w.tasks && w.tasks[id].phase.Finished?
      ensures w.tasks[id].phase.output == tc.run(w.tasks[id].request, w.tasks[id].phase.pre).output
    {
      assert TaskOk(tc, w.files, w.tasks[id]);
    }
  }

  // ----- Forced recaches -----

  /** A forced request never consults the store, and only forced requests
      report a forced recache. */
  predicate ObeysControl(t: Task) {
    var forced := t.request.control == ForceRecache;
    match t.phase
    case LookingUp(_) => !forced
    case Unpacking(_, _, _) => !forced
    case Compiling(_, missType, _) => forced <==> missType == ForcedRecache
    case Packing(_, missType, _, _) => forced <==> missType == ForcedRecache
    case Finished(_, result, _) =>
      (result.CacheHit? ==> !forced) && (result.CacheMiss? ==> (forced <==> result.missType == ForcedRecache))
    case _ => true
  }

  predicate ObeyControl(w: World) {
    forall id :: id in w.tasks ==> ObeysControl(w.tasks[id])
  }

  lemma {:induction false} ForcedRecachesBypassTheStore(tc: Toolchain, w: World, events: seq<Event>)
    requires Produces(tc) && IsRun(tc, w, events) && ObeyControl(w)
    ensures ObeyControl(Run(tc, w, events))
    decreases |events|
  {
    if events != [] {
      ControlStep(tc, w, events[0]);
      ForcedRecachesBypassTheStore(tc, Step(tc, w, events[0]), events[1..]);
    }
  }

  lemma {:induction false} ControlStep(tc: Toolchain, w: World, e: Event)
    requires Produces(tc) && Enabled(tc, w, e) && ObeyControl(w)
    ensures ObeyControl(Step(tc, w, e))
  {
    if OfRequest(e) && !e.Start? {
      ControlMoves(tc, w, e);
    }
  }

  lemma {:induction false} ControlMoves(tc: Toolchain, w: World, e: Event)
    requires Produces(tc) && Enabled(tc, w, e) && ObeyControl(w) && OfRequest(e) && !e.Start?
    ensures ObeyControl(Step(tc, w, e))
  {
    assert ObeysControl(w.tasks[e.id]);
    var w' := Step(tc, w, e);
    assert w'.tasks == w.tasks[e.id := w'.tasks[e.id]];
  }
}
