/** The cached compile path as a state machine. Callbacks of
    `get_cached_or_compile` are steps, and so is every file operation of the
    closures that run on the thread pool beside them; requests, evictions and
    late puts interleave freely between steps. */
module CachedCompile {
  import opened CompilerArguments
  import opened Options
  import Paths
  import opened Octets

  type Key = string
  type Path = string
  type Id = nat

  /** A cache entry: the objects of the zip archive, by name. */
  type Entry = map<string, Bytes>

  datatype Output = Output(status: Option<int>, stdout: Bytes, stderr: Bytes) {
    predicate Success() { status == Some(0) }
  }

  datatype CacheControl = Default | ForceRecache

  datatype Request = Request(digest: string, args: ParsedArguments, cwd: Path, control: CacheControl) {
    function PathOf(name: string): Path
      requires name in args.outputs
    {
      var p := args.outputs[name];
      if p != "" && p[0] == '/' then p else cwd + "/" + p
    }

    function Paths(): set<Path> {
      set name | name in args.outputs :: PathOf(name)
    }
  }

  /** What one run of the real compiler on preprocessed source answers, and
      what it leaves in the output files, by output name. */
  datatype Compiled = Compiled(output: Output, files: map<string, Bytes>)

  /** The parts this model does not look into: the hash, the compiler as a
      function of the request and its preprocessed source, whether it empties an
      output file before it writes it or puts a whole file in its place, and
      which requests with which preprocessed source ever arise. */
  datatype Toolchain = Toolchain(
    hash: (string, string, Bytes) -> Key,
    run: (Request, Bytes) -> Compiled,
    inPlace: bool,
    arises: (Request, Bytes) -> bool)

  function Concat(args: seq<string>): string {
    if args == [] then "" else args[0] + Concat(args[1..])
  }

  function Remove(args: seq<string>, arg: string): seq<string> {
    if args == [] then [] else (if args[0] == arg then [] else [args[0]]) + Remove(args[1..], arg)
  }

  /** `output_file`: the object file's name without its directory. */
  function OutputFile(args: ParsedArguments): string {
    var name := if OBJ in args.outputs then Paths.FileName(args.outputs[OBJ]) else None;
    if name.Some? then name.value else "Unknown filename"
  }

  /** The object file's name is left out of the hashed arguments. */
  function KeyOf(tc: Toolchain, r: Request, pre: Bytes): Key {
    tc.hash(r.digest, Concat(Remove(r.args.commonArgs, OutputFile(r.args))), pre)
  }

  // ----- What is taken of the compiler -----

  /** A successful run produces each output it was asked for, and one file has
      one content, even under two names. */
  ghost predicate Produces(tc: Toolchain) {
    forall r: Request, pre: Bytes ::
      && tc.run(r, pre).files.Keys <= r.args.outputs.Keys
      && (tc.run(r, pre).output.Success() ==> tc.run(r, pre).files.Keys == r.args.outputs.Keys)
      && forall a, b :: a in tc.run(r, pre).files && b in tc.run(r, pre).files && r.PathOf(a) == r.PathOf(b)
                        ==> tc.run(r, pre).files[a] == tc.run(r, pre).files[b]
  }

  /** Among the requests that arise, equal keys mean equal compile outcomes and
      output names. */
  ghost predicate KeyDetermines(tc: Toolchain) {
    forall r: Request, pre: Bytes, r': Request, pre': Bytes ::
      tc.arises(r, pre) && tc.arises(r', pre') && KeyOf(tc, r, pre) == KeyOf(tc, r', pre')
      ==> tc.run(r, pre) == tc.run(r', pre') && r.args.outputs.Keys == r'.args.outputs.Keys
  }

  // ----- State -----

  datatype MissType = Normal | ForcedRecache

  datatype CompileResult =
    | Error
    | CacheHit
    | CacheMiss(missType: MissType)
    | NotCacheable
    | CompileFailed

  /** Of the outputs being written, which are complete and which one has been
      emptied. */
  datatype Progress = Progress(done: set<string>, open: Option<string>) {
    function Opened(name: string): Progress { Progress(done, Some(name)) }
    function Written(name: string): Progress { Progress(done + {name}, None) }
  }

  const NOTHING_YET := Progress({}, None)

  /** A packing request has read `entry` so far. */
  datatype Phase =
    | Preprocessing
    | LookingUp(pre: Bytes)
    | Unpacking(pre: Bytes, entry: Entry, progress: Progress)
    | Compiling(pre: Bytes, missType: MissType, progress: Progress)
    | Packing(pre: Bytes, missType: MissType, output: Output, entry: Entry)
    | PreprocessFailed(output: Output)
    | Finished(pre: Bytes, result: CompileResult, output: Output)
    | Failed

  datatype Task = Task(request: Request, phase: Phase) {
    predicate Active() {
      !phase.PreprocessFailed? && !phase.Finished? && !phase.Failed?
    }
  }

  datatype Put = Put(key: Key, entry: Entry)

  datatype World = World(
    files: map<Path, Bytes>,
    store: map<Key, Entry>,
    tasks: map<Id, Task>,
    puts: map<Id, Put>)

  datatype Answer = Found | NotFound

  /** A hit creates and fills each output; the compiler empties and writes
      them and exits; packing reads them. Then comes what each of these leads
      to. */
  datatype Event =
    | Start(id: Id, request: Request)
    | Preprocessed(id: Id, output: Output)
    | LookedUp(id: Id, answer: Answer)
    | Create(id: Id, name: string)
    | Fill(id: Id)
    | Unpacked(id: Id)
    | Truncate(id: Id, name: string)
    | Write(id: Id, name: string)
    | Exit(id: Id, cacheable: bool)
    | Read(id: Id, name: string)
    | Packed(id: Id)
    | PutDone(id: Id, ok: bool)
    | Drop(key: Key)
    | Abort(id: Id)
    | Restart

  /** Events at the storage. */
  predicate TouchesStore(e: Event) { e.LookedUp? || e.PutDone? || e.Drop? || e.Restart? }

  const STDOUT := "stdout"
  const STDERR := "stderr"

  function PutStreams(entry: Entry, output: Output): Entry {
    var withOut := if output.stdout != [] then entry[STDOUT := output.stdout] else entry;
    if output.stderr != [] then withOut[STDERR := output.stderr] else withOut
  }

  /** A missing stream object reads as empty. */
  function GetStream(entry: Entry, name: string): Bytes {
    if name in entry then entry[name] else []
  }

  // ----- Steps -----

  predicate InPhase(w: World, e: Event)
    requires !e.Drop? && !e.Restart?
  {
    e.id in w.tasks &&
    match e
    case Preprocessed(_, _) => w.tasks[e.id].phase.Preprocessing?
    case LookedUp(_, _) => w.tasks[e.id].phase.LookingUp?
    case Create(_, _) => w.tasks[e.id].phase.Unpacking?
    case Fill(_) => w.tasks[e.id].phase.Unpacking?
    case Unpacked(_) => w.tasks[e.id].phase.Unpacking?
    case Truncate(_, _) => w.tasks[e.id].phase.Compiling?
    case Write(_, _) => w.tasks[e.id].phase.Compiling?
    case Exit(_, _) => w.tasks[e.id].phase.Compiling?
    case Read(_, _) => w.tasks[e.id].phase.Packing?
    case Packed(_) => w.tasks[e.id].phase.Packing?
    case _ => w.tasks[e.id].Active()
  }

  /** The next event of a request that goes through its outputs, in whatever
      order its map yields them, one at a time. */
  predicate Enabled(tc: Toolchain, w: World, e: Event) {
    match e
    case Start(id, _) => id !in w.tasks
    case Preprocessed(_, _) => InPhase(w, e)
    case LookedUp(_, _) => InPhase(w, e)
    case Create(id, name) =>
      InPhase(w, e) && w.tasks[id].phase.progress.open.None?
      && name in w.tasks[id].request.args.outputs && name !in w.tasks[id].phase.progress.done
    case Fill(id) =>
      InPhase(w, e) && w.tasks[id].phase.progress.open.Some?
      && w.tasks[id].phase.progress.open.value in w.tasks[id].request.args.outputs
    case Unpacked(id) =>
      InPhase(w, e) && w.tasks[id].phase.progress == Progress(w.tasks[id].request.args.outputs.Keys, None)
    case Truncate(id, name) =>
      InPhase(w, e) && tc.inPlace && w.tasks[id].phase.progress.open.None?
      && name in tc.run(w.tasks[id].request, w.tasks[id].phase.pre).files && name !in w.tasks[id].phase.progress.done
    case Write(id, name) =>
      InPhase(w, e) && w.tasks[id].phase.progress.open in {None, Some(name)}
      && name in tc.run(w.tasks[id].request, w.tasks[id].phase.pre).files && name !in w.tasks[id].phase.progress.done
    case Exit(id, _) =>
      InPhase(w, e) &&
      w.tasks[id].phase.progress == Progress(tc.run(w.tasks[id].request, w.tasks[id].phase.pre).files.Keys, None)
    case Read(id, name) =>
      InPhase(w, e) && name in w.tasks[id].request.args.outputs && name !in w.tasks[id].phase.entry
    case Packed(id) => InPhase(w, e) && w.tasks[id].phase.entry.Keys == w.tasks[id].request.args.outputs.Keys
    case PutDone(id, _) => id in w.puts
    case Drop(key) => key in w.store
    case Abort(_) => InPhase(w, e)
    case Restart => true
  }

  function To(w: World, id: Id, phase: Phase): World
    requires id in w.tasks
  {
    w.(tasks := w.tasks[id := w.tasks[id].(phase := phase)])
  }

  /** One output file gets new content, and its request moves on. */
  function WriteTo(w: World, id: Id, name: string, bytes: Bytes, phase: Phase): World
    requires id in w.tasks && name in w.tasks[id].request.args.outputs
  {
    To(w.(files := w.files[w.tasks[id].request.PathOf(name) := bytes]), id, phase)
  }

  /** A failed preprocessor's own output is what the client gets, without the
      preprocessed source. */
  function AfterPreprocess(r: Request, output: Output): Phase {
    if !output.Success() then PreprocessFailed(output.(stdout := []))
    else if r.control == ForceRecache then Compiling(output.stdout, ForcedRecache, NOTHING_YET)
    else LookingUp(output.stdout)
  }

  function AfterRun(pre: Bytes, missType: MissType, cacheable: bool, output: Output): Phase {
    if !output.Success() then Finished(pre, CompileFailed, output)
    else if !cacheable then Finished(pre, NotCacheable, output)
    else Packing(pre, missType, output, map[])
  }

  /** The storage answers with an entry only when it has one; it may always
      answer that it has none. */
  function AfterLookup(tc: Toolchain, w: World, r: Request, pre: Bytes, answer: Answer): Phase {
    var key := KeyOf(tc, r, pre);
    if answer.Found? && key in w.store then Unpacking(pre, w.store[key], NOTHING_YET)
    else Compiling(pre, Normal, NOTHING_YET)
  }

  /** A missing object leaves its file as created, and the request fails. */
  function FillStep(w: World, id: Id, pre: Bytes, entry: Entry, progress: Progress): World
    requires id in w.tasks && progress.open.Some? && progress.open.value in w.tasks[id].request.args.outputs
  {
    var name := progress.open.value;
    if name in entry then WriteTo(w, id, name, entry[name], Unpacking(pre, entry, progress.Written(name)))
    else To(w, id, Failed)
  }

  function ReadStep(w: World, id: Id, name: string, phase: Phase): World
    requires id in w.tasks && phase.Packing? && name in w.tasks[id].request.args.outputs
  {
    var path := w.tasks[id].request.PathOf(name);
    if path in w.files
    then To(w, id, Packing(phase.pre, phase.missType, phase.output, phase.entry[name := w.files[path]]))
    else To(w, id, Failed)
  }

  function PackedStep(tc: Toolchain, w: World, id: Id, phase: Phase): World
    requires id in w.tasks && phase.Packing?
  {
    var key := KeyOf(tc, w.tasks[id].request, phase.pre);
    To(w.(puts := w.puts[id := Put(key, PutStreams(phase.entry, phase.output))]), id,
       Finished(phase.pre, CacheMiss(phase.missType), phase.output))
  }

  function Step(tc: Toolchain, w: World, e: Event): World
    requires Produces(tc) && Enabled(tc, w, e)
  {
    match e
    case Start(id, r) => w.(tasks := w.tasks[id := Task(r, Preprocessing)])
    case Preprocessed(id, output) => To(w, id, AfterPreprocess(w.tasks[id].request, output))
    case LookedUp(id, answer) =>
      To(w, id, AfterLookup(tc, w, w.tasks[id].request, w.tasks[id].phase.pre, answer))
    case Create(id, name) =>
      var phase := w.tasks[id].phase;
      WriteTo(w, id, name, [], Unpacking(phase.pre, phase.entry, phase.progress.Opened(name)))
    case Fill(id) => FillStep(w, id, w.tasks[id].phase.pre, w.tasks[id].phase.entry, w.tasks[id].phase.progress)
    case Unpacked(id) =>
      var entry := w.tasks[id].phase.entry;
      To(w, id, Finished(w.tasks[id].phase.pre, CacheHit,
                         Output(Some(0), GetStream(entry, STDOUT), GetStream(entry, STDERR))))
    case Truncate(id, name) =>
      var phase := w.tasks[id].phase;
      WriteTo(w, id, name, [], Compiling(phase.pre, phase.missType, phase.progress.Opened(name)))
    case Write(id, name) =>
      var phase := w.tasks[id].phase;
      WriteTo(w, id, name, tc.run(w.tasks[id].request, phase.pre).files[name],
              Compiling(phase.pre, phase.missType, phase.progress.Written(name)))
    case Exit(id, cacheable) =>
      var phase := w.tasks[id].phase;
      To(w, id, AfterRun(phase.pre, phase.missType, cacheable, tc.run(w.tasks[id].request, phase.pre).output))
    case Read(id, name) => ReadStep(w, id, name, w.tasks[id].phase)
    case Packed(id) => PackedStep(tc, w, id, w.tasks[id].phase)
    case PutDone(id, ok) =>
      var put := w.puts[id];
      w.(puts := w.puts - {id}, store := if ok then w.store[put.key := put.entry] else w.store)
    case Drop(key) => w.(store := w.store - {key})
    case Abort(id) => To(w, id, Failed)
    case Restart => w.(tasks := map[], puts := map[])
  }

  // ----- Runs -----

  /** Which requests may be started while which others are under way: true of
      (running, new) when the new one need not wait. */
  type Policy = (Request, Request) -> bool

  /** Requests come out of the argument parser, start as the policy allows, and
      what is compiled is among what arises. */
  ghost predicate Admissible(tc: Toolchain, policy: Policy, w: World, e: Event) {
    && (e.Start? ==>
          && OutputNames(e.request.args.outputs.Keys)
          && forall id :: id in w.tasks && w.tasks[id].Active() ==> policy(w.tasks[id].request, e.request))
    && (e.Preprocessed? && e.id in w.tasks && e.output.Success() ==>
          tc.arises(w.tasks[e.id].request, e.output.stdout))
  }

  ghost predicate IsRun(tc: Toolchain, w: World, events: seq<Event>)
    requires Produces(tc)
    decreases |events|
  {
    events != [] ==> Enabled(tc, w, events[0]) && IsRun(tc, Step(tc, w, events[0]), events[1..])
  }

  ghost predicate AdmissibleRun(tc: Toolchain, policy: Policy, w: World, events: seq<Event>)
    requires Produces(tc) && IsRun(tc, w, events)
    decreases |events|
  {
    events != [] ==>
      Admissible(tc, policy, w, events[0]) && AdmissibleRun(tc, policy, Step(tc, w, events[0]), events[1..])
  }

  ghost function Run(tc: Toolchain, w: World, events: seq<Event>): World
    requires Produces(tc) && IsRun(tc, w, events)
    decreases |events|
  {
    if events == [] then w else Run(tc, Step(tc, w, events[0]), events[1..])
  }

  /** A daemon that has just started, on whatever files and cache entries are
      around. */
  function Initial(files: map<Path, Bytes>, store: map<Key, Entry>): World {
    World(files, store, map[], map[])
  }

  // ----- Clashes -----

  /** This compile can be served from the store, which empties each output file
      before it fills it. */
  predicate Unpackable(tc: Toolchain, r: Request, pre: Bytes) {
    r.control == Default && tc.run(r, pre).output.Success()
  }

  /** Two compiles clash when they leave different contents in one file, or when
      they leave the same and one of them can have it empty on the way. */
  ghost predicate Clash(tc: Toolchain, r: Request, pre: Bytes, r': Request, pre': Bytes)
    requires Produces(tc)
  {
    var c, c' := tc.run(r, pre), tc.run(r', pre');
    exists a, b :: a in c.files && b in c'.files && r.PathOf(a) == r'.PathOf(b) &&
      (c.files[a] != c'.files[b]
       || (c.files[a] != [] && (tc.inPlace || Unpackable(tc, r, pre) || Unpackable(tc, r', pre'))))
  }

  ghost predicate NeverClash(tc: Toolchain, r: Request, r': Request)
    requires Produces(tc)
  {
    forall pre, pre' :: tc.arises(r, pre) && tc.arises(r', pre') ==> !Clash(tc, r, pre, r', pre')
  }

  /** No two requests that the policy lets overlap can clash. */
  ghost predicate Coherent(tc: Toolchain, policy: Policy)
    requires Produces(tc)
  {
    forall r: Request, r': Request ::
      OutputNames(r.args.outputs.Keys) && OutputNames(r'.args.outputs.Keys) && policy(r, r')
      ==> NeverClash(tc, r, r')
  }
}
