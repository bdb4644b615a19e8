/** One request from start to end: the loops that pack and unpack outputs, and
    `get_cached_or_compile` run without interruption. */
module CompileService {
  import opened CompilerArguments
  import opened Options
  import opened Octets
  import opened CachedCompile
  import opened CacheTransparency
  import opened OneRequest

  /** A cache entry being filled. */
  class CacheWrite {
    var objects: Entry

    constructor ()
      ensures objects == map[]
    {
      objects := map[];
    }

    method PutObject(name: string, bytes: Bytes)
      modifies this
      ensures objects == old(objects)[name := bytes]
    {
      objects := objects[name := bytes];
    }
  }

  /** A cache entry being read. */
  class CacheRead {
    const objects: Entry

    constructor (objects: Entry)
      ensures this.objects == objects
    {
      this.objects := objects;
    }

    method GetObject(name: string) returns (bytes: Option<Bytes>)
      ensures bytes == if name in objects then Some(objects[name]) else None
    {
      bytes := if name in objects then Some(objects[name]) else None;
    }
  }

  /** Outputs that share a file have the same object. */
  ghost predicate Consistent(r: Request, entry: Entry) {
    forall a, b :: a in r.args.outputs && b in r.args.outputs && a in entry && b in entry && r.PathOf(a) == r.PathOf(b)
                   ==> entry[a] == entry[b]
  }

  /** The files of these outputs hold their objects. */
  ghost predicate Unpacks(r: Request, names: set<string>, entry: Entry, files: map<Path, Bytes>)
    requires names <= r.args.outputs.Keys
  {
    forall name :: name in names ==> name in entry && r.PathOf(name) in files && files[r.PathOf(name)] == entry[name]
  }

  /** Which steps fail for reasons of their own: the lookup, writing the output
      files, running the compiler, or filling the new entry. */
  datatype Faults = Faults(lookup: bool, unpack: bool, compile: bool, pack: bool)

  /** Whether a request is answered from the store, if that gives out what it
      has. */
  predicate Hits(tc: Toolchain, store: map<Key, Entry>, r: Request, pre: Bytes, available: bool) {
    r.control == Default && available && KeyOf(tc, r, pre) in store
  }

  /** The kind of answer, when no step is at fault. */
  function Expected(tc: Toolchain, store: map<Key, Entry>, r: Request, pre: Bytes, available: bool, cacheable: bool)
    : CompileResult
  {
    if Hits(tc, store, r, pre, available) then CacheHit
    else if !tc.run(r, pre).output.Success() then CompileFailed
    else if !cacheable then NotCacheable
    else CacheMiss(if r.control == ForceRecache then ForcedRecache else Normal)
  }

  /** Whether a step that this request comes to is at fault. */
  predicate Fails(tc: Toolchain, store: map<Key, Entry>, r: Request, pre: Bytes, available: bool, cacheable: bool,
                  faults: Faults)
  {
    || (r.control == Default && faults.lookup)
    || (if Hits(tc, store, r, pre, available) then faults.unpack else faults.compile)
    || (Expected(tc, store, r, pre, available, cacheable).CacheMiss? && faults.pack)
  }

  class Daemon {
    const tc: Toolchain
    var files: map<Path, Bytes>
    var store: map<Key, Entry>
    var pending: seq<Put>

    constructor (tc: Toolchain, files: map<Path, Bytes>)
      ensures this.tc == tc && this.files == files && store == map[] && pending == [] && Sound()
    {
      this.tc, this.files, store, pending := tc, files, map[], [];
    }

    /** Every stored or pending entry packs a successful compile for its key. */
    ghost predicate Sound()
      reads this
    {
      && StoreOk(tc, store)
      && (forall put :: put in pending ==> PacksACompile(tc, put.key, put.entry))
    }

    /** The closure that writes a hit's objects to the output files, in the
        order in which the map is iterated: each is created and then filled. */
    method UnpackOutputs(r: Request, entry: CacheRead) returns (ok: bool)
      modifies this`files
      ensures ok <==> r.args.outputs.Keys <= entry.objects.Keys
      ensures ok && Consistent(r, entry.objects) ==> Unpacks(r, r.args.outputs.Keys, entry.objects, files)
      ensures SameOutside(old(files), files, r.Paths())
    {
      var todo := r.args.outputs.Keys;
      while todo != {}
        invariant todo <= r.args.outputs.Keys
        invariant r.args.outputs.Keys - todo <= entry.objects.Keys
        invariant Consistent(r, entry.objects) ==> Unpacks(r, r.args.outputs.Keys - todo, entry.objects, files)
        invariant SameOutside(old(files), files, r.Paths())
        decreases todo
      {
        var name :| name in todo;
        assert r.PathOf(name) in r.Paths();
        files := files[r.PathOf(name) := []];
        var bytes := entry.GetObject(name);
        if bytes.None? { return false; }
        files := files[r.PathOf(name) := bytes.value];
        todo := todo - {name};
      }
      ok := true;
    }

    /** The closure that reads the output files into a new entry. */
    method PackOutputs(r: Request, entry: CacheWrite) returns (ok: bool)
      requires entry.objects == map[]
      modifies entry
      ensures ok <==> r.Paths() <= files.Keys
      ensures ok ==> entry.objects == map name | name in r.args.outputs :: files[r.PathOf(name)]
    {
      var todo := r.args.outputs.Keys;
      while todo != {}
        invariant todo <= r.args.outputs.Keys
        invariant forall name :: name in r.args.outputs && name !in todo ==> r.PathOf(name) in files
        invariant entry.objects == map name | name in r.args.outputs && name !in todo :: files[r.PathOf(name)]
        decreases todo
      {
        var name :| name in todo;
        if r.PathOf(name) !in files {
          assert r.PathOf(name) in r.Paths();
          return false;
        }
        entry.PutObject(name, files[r.PathOf(name)]);
        todo := todo - {name};
      }
      ok := true;
    }

    /** Running the compiler leaves what it produced in the output files. */
    method RunCompiler(r: Request, pre: Bytes) returns (output: Output)
      requires Produces(tc)
      modifies this`files
      ensures output == tc.run(r, pre).output
      ensures Produces(tc) && Holds(files, r, tc.run(r, pre).files)
      ensures SameOutside(old(files), files, PathsOf(r, tc.run(r, pre).files.Keys))
    {
      var compiled := tc.run(r, pre);
      output := compiled.output;
      var todo := compiled.files.Keys;
      while todo != {}
        invariant todo <= compiled.files.Keys
        invariant forall name :: name in compiled.files && name !in todo ==>
                    r.PathOf(name) in files && files[r.PathOf(name)] == compiled.files[name]
        invariant SameOutside(old(files), files, PathsOf(r, tc.run(r, pre).files.Keys))
        decreases todo
      {
        var name :| name in todo;
        assert r.PathOf(name) in PathsOf(r, tc.run(r, pre).files.Keys);
        files := files[r.PathOf(name) := compiled.files[name]];
        todo := todo - {name};
      }
    }

    /** A hit: unpack the entry and answer from its stream objects. */
    method ServeHit(r: Request, pre: Bytes, objects: Entry) returns (output: Output)
      requires Produces(tc) && KeyDetermines(tc)
      requires tc.arises(r, pre) && PacksACompile(tc, KeyOf(tc, r, pre), objects)
      modifies this`files
      ensures output == tc.run(r, pre).output
      ensures Produces(tc) && Holds(files, r, tc.run(r, pre).files)
      ensures SameOutside(old(files), files, PathsOf(r, tc.run(r, pre).files.Keys))
    {
      var entry := new CacheRead(objects);
      var stdout := entry.GetObject(STDOUT);
      var stderr := entry.GetObject(STDERR);
      UnpackPacked(tc, r, pre, objects);
      assert Consistent(r, objects);
      var ok := UnpackOutputs(r, entry);
      assert r.Paths() == PathsOf(r, tc.run(r, pre).files.Keys);
      output := Output(Some(0), if stdout.Some? then stdout.value else [], if stderr.Some? then stderr.value else []);
    }

    /** A miss: compile, pack what came out and leave the put pending. None is
        an error on the way. */
    method Compile(r: Request, pre: Bytes, missType: MissType, cacheable: bool, faults: Faults)
      returns (answer: Option<Told>)
      requires Produces(tc)
      modifies this`files, this`pending
      ensures SameOutside(old(files), files, PathsOf(r, tc.run(r, pre).files.Keys))
      ensures faults.compile ==> answer == None && files == old(files)
      ensures !faults.compile ==> Produces(tc) && Holds(files, r, tc.run(r, pre).files)
      ensures !faults.compile ==>
                var output := tc.run(r, pre).output;
                answer == if !output.Success() then Some(Told(CompileFailed, output))
                          else if !cacheable then Some(Told(NotCacheable, output))
                          else if faults.pack then None
                          else Some(Told(CacheMiss(missType), output))
      ensures pending == old(pending) +
                if answer.Some? && answer.value.result.CacheMiss?
                then [Put(KeyOf(tc, r, pre), PackedEntry(tc.run(r, pre)))] else []
    {
      if faults.compile { return None; }
      var output := RunCompiler(r, pre);
      if !output.Success() { return Some(Told(CompileFailed, output)); }
      if !cacheable { return Some(Told(NotCacheable, output)); }
      if faults.pack { return None; }
      var entry := new CacheWrite();
      forall p | p in r.Paths() ensures p in files { }
      var ok := PackOutputs(r, entry);
      assert entry.objects == tc.run(r, pre).files;
      if output.stdout != [] { entry.PutObject(STDOUT, output.stdout); }
      if output.stderr != [] { entry.PutObject(STDERR, output.stderr); }
      pending := pending + [Put(KeyOf(tc, r, pre), entry.objects)];
      answer := Some(Told(CacheMiss(missType), output));
    }

    /** The part after a successful preprocess: `available` is whether the
        storage gives out what it has, `cacheable` what the compiler kind says of
        this run. */
    method LookUpOrCompile(r: Request, pre: Bytes, available: bool, cacheable: bool, faults: Faults)
      returns (answer: Option<Told>)
      requires Produces(tc) && KeyDetermines(tc) && tc.arises(r, pre)
      requires KeyOf(tc, r, pre) in store ==> PacksACompile(tc, KeyOf(tc, r, pre), store[KeyOf(tc, r, pre)])
      modifies this`files, this`pending
      ensures SameOutside(old(files), files, PathsOf(r, tc.run(r, pre).files.Keys))
      ensures answer == None <==> Fails(tc, store, r, pre, available, cacheable, faults)
      ensures answer.Some? ==>
                && answer.value == Told(Expected(tc, store, r, pre, available, cacheable), tc.run(r, pre).output)
                && Produces(tc) && Holds(files, r, tc.run(r, pre).files)
      ensures pending == old(pending) +
                if answer.Some? && answer.value.result.CacheMiss?
                then [Put(KeyOf(tc, r, pre), PackedEntry(tc.run(r, pre)))] else []
    {
      if r.control == Default && faults.lookup { return None; }
      if Hits(tc, store, r, pre, available) {
        if faults.unpack { return None; }
        var output := ServeHit(r, pre, store[KeyOf(tc, r, pre)]);
        return Some(Told(CacheHit, output));
      }
      var missType := if r.control == ForceRecache then ForcedRecache else Normal;
      answer := Compile(r, pre, missType, cacheable, faults);
    }

    /** The function itself, when nothing else runs in between: it ends as the
        state machine does when the request is on its own. `preprocessed` is none
        when the preprocessor could not be run. */
    method GetCachedOrCompile(r: Request, preprocessed: Option<Output>, available: bool, cacheable: bool,
                              faults: Faults)
      returns (answer: Option<Told>)
      requires Produces(tc) && KeyDetermines(tc) && Sound() && OutputNames(r.args.outputs.Keys)
      requires preprocessed.Some? && preprocessed.value.Success() ==> tc.arises(r, preprocessed.value.stdout)
      modifies this`files, this`pending
      ensures Sound() && SameOutside(old(files), files, r.Paths())
      ensures preprocessed == None ==> answer == None && files == old(files) && pending == old(pending)
      ensures preprocessed.Some? && !preprocessed.value.Success() ==>
                && answer == Some(Told(Error, preprocessed.value.(stdout := [])))
                && files == old(files) && pending == old(pending)
      ensures preprocessed.Some? && preprocessed.value.Success() ==>
                var pre := preprocessed.value.stdout;
                && (answer == None <==> Fails(tc, store, r, pre, available, cacheable, faults))
                && (answer.Some? ==>
                      && answer.value.result == Expected(tc, store, r, pre, available, cacheable)
                      && answer.value.output == tc.run(r, pre).output
                      && Produces(tc) && Holds(files, r, tc.run(r, pre).files))
                && pending == old(pending) +
                     if answer.Some? && answer.value.result.CacheMiss?
                     then [Put(KeyOf(tc, r, pre), PackedEntry(tc.run(r, pre)))] else []
      ensures answer.Some? && answer.value.result == CacheHit ==> r.control == Default && available
      ensures answer.Some? && answer.value.result.CacheMiss? ==>
                (answer.value.result.missType == ForcedRecache <==> r.control == ForceRecache)
      ensures preprocessed.Some? && preprocessed.value.Success() && r.control == Default && available
              && KeyOf(tc, r, preprocessed.value.stdout) in store && !faults.lookup && !faults.unpack ==>
                answer.Some? && answer.value.result == CacheHit
      ensures preprocessed.Some? && answer.Some? ==>
                && Produces(tc) && |old(pending)| <= |pending|
                && RunsAlone(tc, old(files), store, r, preprocessed.value, available, cacheable, answer.value, files,
                             pending[|old(pending)|..])
    {
      if preprocessed == None { return None; }
      if !preprocessed.value.Success() {
        AlonePreprocessFails(tc, files, store, r, preprocessed.value, available, cacheable);
        return Some(Told(Error, preprocessed.value.(stdout := [])));
      }
      var pre := preprocessed.value.stdout;
      answer := LookUpOrCompile(r, pre, available, cacheable, faults);
      SameOutsideWider(old(files), files, r, tc.run(r, pre).files.Keys);
      if answer.Some? {
        if Hits(tc, store, r, pre, available) {
          AloneHits(tc, old(files), store, r, preprocessed.value, cacheable, files);
        } else {
          AloneMisses(tc, old(files), store, r, preprocessed.value, available, cacheable, files);
        }
      }
      assert answer.Some? && answer.value.result.CacheMiss?
             ==> PacksThis(tc, KeyOf(tc, r, pre), PackedEntry(tc.run(r, pre)), r, pre);
    }

    /** Some pending put ends, whichever is first; only a successful one changes
        the store. */
    method EndPut(i: nat, ok: bool)
      requires Sound() && i < |pending|
      modifies this`store, this`pending
      ensures Sound() && pending == old(pending[..i] + pending[i + 1..])
      ensures store == if ok then old(store)[old(pending[i]).key := old(pending[i]).entry] else old(store)
    {
      var put := pending[i];
      if ok { store := store[put.key := put.entry]; }
      pending := pending[..i] + pending[i + 1..];
    }
  }
}
