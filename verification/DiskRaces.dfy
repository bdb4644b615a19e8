/** Exactly when the daemon is transparent on its disk cache: when no put empties
    an archive whose streams a hit has yet to read. */
module DiskRaces {
  import opened CompilerArguments
  import opened Options
  import opened Octets
  import opened CachedCompile
  import opened CacheTransparency
  import opened Assumptions
  import opened SharedOutputs
  import Recency
  import LruDisk
  import opened DiskStorage
  import opened Archives
  import opened DiskTransparency

  // ----- Building runs -----

  ghost predicate DiskReaches(tc: Toolchain, zip: Zip, policy: Policy, guard: Guard, d: DiskWorld,
                              events: seq<DiskEvent>, d': DiskWorld)
    requires Produces(tc)
  {
    && IsDiskRun(tc, zip, d, events) && AdmissibleDiskRun(tc, zip, policy, guard, d, events)
    && DiskRun(tc, zip, d, events) == d'
  }

  lemma {:induction false} DiskOneStep(tc: Toolchain, zip: Zip, policy: Policy, guard: Guard, d: DiskWorld,
                                       e: DiskEvent)
    requires Produces(tc) && DiskEnabled(tc, d, e) && DiskAdmissible(tc, policy, guard, d, e)
    ensures DiskReaches(tc, zip, policy, guard, d, [e], DiskStep(tc, zip, d, e))
  {
    assert [e][1..] == [];
  }

  lemma {:induction false} DiskFurther(tc: Toolchain, zip: Zip, policy: Policy, guard: Guard, d: DiskWorld,
                                       a: seq<DiskEvent>, d': DiskWorld, b: seq<DiskEvent>, d'': DiskWorld)
    requires Produces(tc)
    requires DiskReaches(tc, zip, policy, guard, d, a, d') && DiskReaches(tc, zip, policy, guard, d', b, d'')
    ensures DiskReaches(tc, zip, policy, guard, d, a + b, d'')
    ensures TransparentOnDisk(tc, zip, d, a + b) ==> TransparentOnDisk(tc, zip, d', b)
    decreases |a|
  {
    if a == [] {
      assert a + b == b;
    } else {
      assert (a + b)[1..] == a[1..] + b;
      DiskFurther(tc, zip, policy, guard, DiskStep(tc, zip, d, a[0]), a[1..], d', b, d'');
    }
  }

  predicate NothingUnread(d: DiskWorld) { forall id :: id in d.handles ==> d.handles[id].unread == {} }

  /** What a request does by itself it does on the disk cache too. */
  lemma {:induction false} Lift(tc: Toolchain, zip: Zip, policy: Policy, guard: Guard, d: DiskWorld,
                                events: seq<Event>, w: World) returns (lifted: seq<DiskEvent>)
    requires Produces(tc) && Reaches(tc, policy, d.daemon, events, w) && Offline(events) && NothingUnread(d)
    ensures DiskReaches(tc, zip, policy, guard, d, lifted, d.(daemon := w))
    decreases |events|
  {
    if events == [] {
      lifted := [];
    } else {
      var e := Elsewhere(events[0]);
      assert events[0] in events;
      DiskOneStep(tc, zip, policy, guard, d, e);
      var d' := DiskStep(tc, zip, d, e);
      var rest := Lift(tc, zip, policy, guard, d', events[1..], w);
      DiskFurther(tc, zip, policy, guard, d, [e], d', rest, d.(daemon := w));
      lifted := [e] + rest;
    }
  }

  /** A new request up to its lookup. */
  lemma {:induction false} LooksUp(tc: Toolchain, zip: Zip, policy: Policy, guard: Guard, d: DiskWorld, id: Id,
                                   r: Request, pre: Bytes)
    returns (events: seq<DiskEvent>)
    requires Produces(tc) && Idle(d.daemon) && id !in d.daemon.tasks && NothingUnread(d)
    requires OutputNames(r.args.outputs.Keys) && r.control == Default && tc.arises(r, pre)
    ensures DiskReaches(tc, zip, policy, guard, d, events,
                        d.(daemon := d.daemon.(tasks := d.daemon.tasks[id := Task(r, LookingUp(pre))])))
  {
    var w, start, preprocessed := d.daemon, Start(id, r), Preprocessed(id, Output(Some(0), pre, []));
    OneStep(tc, policy, w, start);
    var w1 := Step(tc, w, start);
    OneStep(tc, policy, w1, preprocessed);
    var w2 := Step(tc, w1, preprocessed);
    Further(tc, policy, w, [start], w1, [preprocessed], w2);
    assert w2.tasks == w.tasks[id := Task(r, LookingUp(pre))];
    events := Lift(tc, zip, policy, guard, d, [start] + [preprocessed], w2);
  }

  // ----- A miss -----

  function FinishedMiss(tc: Toolchain, r: Request, pre: Bytes): Task {
    Task(r, Finished(pre, CacheMiss(Normal), tc.run(r, pre).output))
  }

  /** A request that misses leaves its put pending. */
  lemma {:induction false} Misses(tc: Toolchain, zip: Zip, policy: Policy, guard: Guard, d: DiskWorld, id: Id,
                                  r: Request, pre: Bytes)
    returns (events: seq<DiskEvent>, files: map<Path, Bytes>)
    requires Produces(tc) && Idle(d.daemon) && id !in d.daemon.tasks && NothingUnread(d) && d.lock == None
    requires OutputNames(r.args.outputs.Keys) && Unpackable(tc, r, pre) && tc.arises(r, pre)
    requires IsKey(KeyOf(tc, r, pre)) && MakeKeyPath(KeyOf(tc, r, pre)) !in Recency.Keys(d.disk.entries)
    ensures
      var w := d.daemon;
      DiskReaches(tc, zip, policy, guard, d, events,
                  d.(daemon := World(files, w.store, w.tasks[id := FinishedMiss(tc, r, pre)],
                                     w.puts[id := Put(KeyOf(tc, r, pre), PackedEntry(tc.run(r, pre)))])))
  {
    var w := d.daemon;
    var looks := LooksUp(tc, zip, policy, guard, d, id, r, pre);
    var d1 := d.(daemon := w.(tasks := w.tasks[id := Task(r, LookingUp(pre))]));
    var d2 := d.(daemon := w.(tasks := w.tasks[id := Task(r, Compiling(pre, Normal, NOTHING_YET))]));
    LookupMisses(tc, zip, policy, guard, d1, id, r, pre, d2);
    DiskFurther(tc, zip, policy, guard, d, looks, d1, [Lookup(id, 0)], d2);
    var compiles, w3 := CompilesAndPacks(tc, policy, d2.daemon, id, r, pre);
    var lifted := Lift(tc, zip, policy, guard, d2, compiles, w3);
    files := w3.files;
    DiskFurther(tc, zip, policy, guard, d, looks + [Lookup(id, 0)], d2, lifted, d2.(daemon := w3));
    events := looks + [Lookup(id, 0)] + lifted;
    assert w3.tasks == w.tasks[id := FinishedMiss(tc, r, pre)];
  }

  lemma {:induction false} LookupMisses(tc: Toolchain, zip: Zip, policy: Policy, guard: Guard, d: DiskWorld, id: Id,
                                        r: Request, pre: Bytes, d': DiskWorld)
    requires Produces(tc) && d.lock == None && IsKey(KeyOf(tc, r, pre))
    requires MakeKeyPath(KeyOf(tc, r, pre)) !in Recency.Keys(d.disk.entries)
    requires id in d.daemon.tasks && d.daemon.tasks[id] == Task(r, LookingUp(pre))
    requires d'.daemon.tasks == d.daemon.tasks[id := Task(r, Compiling(pre, Normal, NOTHING_YET))]
    requires d' == d.(daemon := d.daemon.(tasks := d'.daemon.tasks))
    ensures DiskReaches(tc, zip, policy, guard, d, [Lookup(id, 0)], d')
  {
    DiskOneStep(tc, zip, policy, guard, d, Lookup(id, 0));
  }

  lemma {:induction false} CompilesAndPacks(tc: Toolchain, policy: Policy, w: World, id: Id, r: Request, pre: Bytes)
    returns (events: seq<Event>, w': World)
    requires Produces(tc) && id in w.tasks && w.tasks[id] == Task(r, Compiling(pre, Normal, NOTHING_YET))
    requires Unpackable(tc, r, pre)
    ensures Reaches(tc, policy, w, events, w') && Offline(events)
    ensures w' == World(w'.files, w.store, w.tasks[id := FinishedMiss(tc, r, pre)],
                        w.puts[id := Put(KeyOf(tc, r, pre), PackedEntry(tc.run(r, pre)))])
  {
    var writes, w1 := WritesAll(tc, policy, w, id);
    var packs, entry;
    packs, w', entry := Packs(tc, policy, w1, id, r, pre);
    assert entry == tc.run(r, pre).files;
    Further(tc, policy, w, writes, w1, packs, w');
    events := writes + packs;
    assert w'.tasks == w.tasks[id := FinishedMiss(tc, r, pre)];
  }

  // ----- A put -----

  /** The first put of a cache that has just room for it. */
  lemma {:induction false} PutsFirst(tc: Toolchain, zip: Zip, policy: Policy, guard: Guard, d: DiskWorld, id: Id,
                                     capacity: nat)
    returns (events: seq<DiskEvent>, d': DiskWorld)
    requires Produces(tc) && d.disk == LruDisk.State(capacity, [], map[]) && d.handles == map[] && d.lock == None
    requires id in d.daemon.puts && IsKey(d.daemon.puts[id].key) && |zip.pack(d.daemon.puts[id].entry)| == capacity
    ensures DiskReaches(tc, zip, policy, guard, d, events, d')
    ensures
      var put := d.daemon.puts[id];
      var path := MakeKeyPath(put.key);
      d' == DiskWorld(d.daemon.(puts := d.daemon.puts - {id}),
                      LruDisk.State(capacity, [Recency.Entry(path, capacity)],
                                    map[path := LruDisk.File(zip.pack(put.entry), 0)]), map[], None)
  {
    var put := d.daemon.puts[id];
    var path, file := MakeKeyPath(put.key), LruDisk.File(zip.pack(put.entry), 0);
    assert !InUse(d, path);
    DiskOneStep(tc, zip, policy, guard, d, BeginPut(id, 0));
    var d1 := DiskStep(tc, zip, d, BeginPut(id, 0));
    DiskOneStep(tc, zip, policy, guard, d1, EndPut(id, 0));
    d' := DiskStep(tc, zip, d1, EndPut(id, 0));
    LruDisk.InsertOutcome(d1.disk, path, file);
    assert d'.disk.files == map[path := file];
    assert d'.disk.entries == [Recency.Entry(path, capacity)];
    assert d'.handles == map[];
    DiskFurther(tc, zip, policy, guard, d, [BeginPut(id, 0)], d1, [EndPut(id, 0)], d');
    events := [BeginPut(id, 0)] + [EndPut(id, 0)];
  }

  // ----- A hit that is torn -----

  /** A hit on the one archive there is. */
  ghost predicate Opens(zip: Zip, d: DiskWorld, id: Id, r: Request, pre: Bytes, key: CacheKey, entry: CacheEntry)
    requires IsKey(key)
  {
    && d.disk.files.Keys == {MakeKeyPath(key)} && d.disk.files[MakeKeyPath(key)].bytes == zip.pack(entry)
    && |zip.pack(entry)| <= d.disk.capacity
    && d.handles == map[id := Handle(MakeKeyPath(key), zip.pack(entry), zip.pack(entry), true, {STDOUT, STDERR})]
    && d.lock == None
    && id in d.daemon.tasks && d.daemon.tasks[id] == Task(r, Unpacking(pre, entry, NOTHING_YET))
  }

  lemma {:induction false} HitOpens(tc: Toolchain, zip: Zip, policy: Policy, guard: Guard, d: DiskWorld, id: Id,
                                    r: Request, pre: Bytes, capacity: nat)
    returns (events: seq<DiskEvent>, d': DiskWorld)
    requires Produces(tc) && Faithful(zip) && Idle(d.daemon) && id !in d.daemon.tasks
    requires OutputNames(r.args.outputs.Keys) && r.control == Default && tc.arises(r, pre) && IsKey(KeyOf(tc, r, pre))
    requires
      var path, bytes := MakeKeyPath(KeyOf(tc, r, pre)), zip.pack(PackedEntry(tc.run(r, pre)));
      && |bytes| == capacity
      && d.disk == LruDisk.State(capacity, [Recency.Entry(path, capacity)], map[path := LruDisk.File(bytes, 0)])
      && d.handles == map[] && d.lock == None
    ensures DiskReaches(tc, zip, policy, guard, d, events, d') && d'.daemon.puts == d.daemon.puts
    ensures Opens(zip, d', id, r, pre, KeyOf(tc, r, pre), PackedEntry(tc.run(r, pre)))
  {
    var looks := LooksUp(tc, zip, policy, guard, d, id, r, pre);
    var d1 := d.(daemon := d.daemon.(tasks := d.daemon.tasks[id := Task(r, LookingUp(pre))]));
    DiskOneStep(tc, zip, policy, guard, d1, Lookup(id, 0));
    d' := DiskStep(tc, zip, d1, Lookup(id, 0));
    DiskFurther(tc, zip, policy, guard, d, looks, d1, [Lookup(id, 0)], d');
    events := looks + [Lookup(id, 0)];
  }

  function Other(name: string): string { if name == STDOUT then STDERR else STDOUT }

  /** A put of the same key empties the archive, and the stream `name` is read as
      empty. */
  lemma {:induction false} Tears(tc: Toolchain, zip: Zip, policy: Policy, guard: Guard, d: DiskWorld, id: Id,
                                 r: Request, pre: Bytes, key: CacheKey, entry: CacheEntry, put: Id, name: string)
    returns (events: seq<DiskEvent>, d': DiskWorld)
    requires Produces(tc) && Faithful(zip) && IsKey(key) && Opens(zip, d, id, r, pre, key, entry) && !guard(key)
    requires put in d.daemon.puts && d.daemon.puts[put] == Put(key, entry)
    requires (name == STDOUT || name == STDERR) && name in entry && STDOUT != STDERR
    ensures DiskReaches(tc, zip, policy, guard, d, events, d') && NothingUnread(d')
    ensures id in d'.daemon.tasks && d'.daemon.tasks[id] == Task(r, Unpacking(pre, entry[name := []], NOTHING_YET))
  {
    var other := Other(name);
    var begin, torn, rest := BeginPut(put, 0), ReadStream(id, name, []), ReadStream(id, other, GetStream(entry, other));
    DiskOneStep(tc, zip, policy, guard, d, begin);
    var d1 := DiskStep(tc, zip, d, begin);
    DiskOneStep(tc, zip, policy, guard, d1, torn);
    var d2 := DiskStep(tc, zip, d1, torn);
    DiskOneStep(tc, zip, policy, guard, d2, rest);
    d' := DiskStep(tc, zip, d2, rest);
    assert entry[name := []][other := GetStream(entry, other)] == entry[name := []] || other !in entry;
    DiskFurther(tc, zip, policy, guard, d, [begin], d1, [torn], d2);
    DiskFurther(tc, zip, policy, guard, d, [begin] + [torn], d2, [rest], d');
    events := [begin] + [torn] + [rest];
  }

  /** The compile prints to this stream. */
  predicate PrintsTo(output: Output, name: string) {
    (name == STDOUT && output.stdout != []) || (name == STDERR && output.stderr != [])
  }

  /** Once unpacked, the client gets its answer without the stream. */
  lemma {:induction false} TornEnds(tc: Toolchain, zip: Zip, policy: Policy, guard: Guard, d: DiskWorld, id: Id,
                                    r: Request, pre: Bytes, entry: CacheEntry, name: string)
    returns (d': DiskWorld)
    requires Produces(tc) && id in d.daemon.tasks && name in entry && entry[name] == []
    requires d.daemon.tasks[id] == Task(r, Unpacking(pre, entry, Progress(r.args.outputs.Keys, None)))
    requires PrintsTo(tc.run(r, pre).output, name)
    ensures DiskReaches(tc, zip, policy, guard, d, [Elsewhere(Unpacked(id))], d')
    ensures !TransparentOnDisk(tc, zip, d, [Elsewhere(Unpacked(id))])
  {
    var e := Elsewhere(Unpacked(id));
    DiskOneStep(tc, zip, policy, guard, d, e);
    d' := DiskStep(tc, zip, d, e);
    assert FinishedBy(d.daemon, d'.daemon, id) && !LikeDirect(tc, d'.daemon, id);
  }

  lemma {:induction false} TornShows(tc: Toolchain, zip: Zip, policy: Policy, guard: Guard, d: DiskWorld, id: Id,
                                     r: Request, pre: Bytes, entry: CacheEntry, name: string)
    returns (events: seq<DiskEvent>, d': DiskWorld)
    requires Produces(tc) && NothingUnread(d) && OutputNames(r.args.outputs.Keys)
    requires id in d.daemon.tasks && d.daemon.tasks[id] == Task(r, Unpacking(pre, entry, NOTHING_YET))
    requires r.args.outputs.Keys <= entry.Keys && name in entry && entry[name] == []
    requires PrintsTo(tc.run(r, pre).output, name)
    ensures DiskReaches(tc, zip, policy, guard, d, events, d') && !TransparentOnDisk(tc, zip, d, events)
  {
    var fills, w1 := FillsAll(tc, policy, d.daemon, id, OBJ);
    var d1 := d.(daemon := w1);
    var lifted := Lift(tc, zip, policy, guard, d, fills, w1);
    d' := TornEnds(tc, zip, policy, guard, d1, id, r, pre, entry, name);
    DiskFurther(tc, zip, policy, guard, d, lifted, d1, [Elsewhere(Unpacked(id))], d');
    events := lifted + [Elsewhere(Unpacked(id))];
  }

  // ----- The exact condition -----

  /** Two requests miss before either has put its entry; the first put ends, a
      third request hits, and the second put begins. */
  lemma {:induction false} UnguardedShows(tc: Toolchain, zip: Zip, policy: Policy, guard: Guard, r: Request, pre: Bytes)
    returns (capacity: nat, events: seq<DiskEvent>)
    requires Produces(tc) && Faithful(zip) && tc.arises(r, pre) && Prints(tc, r, pre) && !guard(KeyOf(tc, r, pre))
    ensures
      var d := Opened(map[], LruDisk.State(capacity, [], map[]));
      && IsDiskRun(tc, zip, d, events) && AdmissibleDiskRun(tc, zip, policy, guard, d, events)
      && !TransparentOnDisk(tc, zip, d, events)
  {
    var key, entry := KeyOf(tc, r, pre), PackedEntry(tc.run(r, pre));
    var name := if tc.run(r, pre).output.stdout != [] then STDOUT else STDERR;
    StreamNamesApart(r.args.outputs.Keys);
    capacity := |zip.pack(entry)|;
    var d0 := Opened(map[], LruDisk.State(capacity, [], map[]));
    var e1, files1 := Misses(tc, zip, policy, guard, d0, 1, r, pre);
    var d1 := d0.(daemon := World(files1, map[], map[1 := FinishedMiss(tc, r, pre)], map[1 := Put(key, entry)]));
    var e2, files2 := Misses(tc, zip, policy, guard, d1, 2, r, pre);
    var d2 := d1.(daemon := World(files2, map[], d1.daemon.tasks[2 := FinishedMiss(tc, r, pre)],
                                  d1.daemon.puts[2 := Put(key, entry)]));
    var e3, d3 := PutsFirst(tc, zip, policy, guard, d2, 1, capacity);
    var e4, d4 := HitOpens(tc, zip, policy, guard, d3, 3, r, pre, capacity);
    var e5, d5 := Tears(tc, zip, policy, guard, d4, 3, r, pre, key, entry, 2, name);
    PackedStreams(tc.run(r, pre).files, tc.run(r, pre).output);
    var e6, d6 := TornShows(tc, zip, policy, guard, d5, 3, r, pre, entry[name := []], name);
    DiskFurther(tc, zip, policy, guard, d0, e1, d1, e2, d2);
    DiskFurther(tc, zip, policy, guard, d0, e1 + e2, d2, e3, d3);
    DiskFurther(tc, zip, policy, guard, d0, e1 + e2 + e3, d3, e4, d4);
    DiskFurther(tc, zip, policy, guard, d0, e1 + e2 + e3 + e4, d4, e5, d5);
    DiskFurther(tc, zip, policy, guard, d0, e1 + e2 + e3 + e4 + e5, d5, e6, d6);
    events := e1 + e2 + e3 + e4 + e5 + e6;
  }

  ghost predicate TransparentOnAnyDisk(tc: Toolchain, zip: Zip, policy: Policy, guard: Guard)
    requires Produces(tc)
  {
    forall files, disk, store, events ::
      && StoreOk(tc, store) && Backed(zip, disk, store) && IsDiskRun(tc, zip, Opened(files, disk), events)
      && AdmissibleDiskRun(tc, zip, policy, guard, Opened(files, disk), events)
      ==> TransparentOnDisk(tc, zip, Opened(files, disk), events)
  }

  /** The exact condition on the disk cache: every admitted run is transparent if
      and only if puts wait for hits to be read, for each key of a compile that
      prints something. */
  lemma {:induction false} DiskTransparentExactly(tc: Toolchain, zip: Zip, policy: Policy, guard: Guard)
    requires Produces(tc) && KeyDetermines(tc) && Coherent(tc, policy) && Faithful(zip)
    ensures TransparentOnAnyDisk(tc, zip, policy, guard) <==> Shielded(tc, guard)
  {
    if Shielded(tc, guard) {
      forall files, disk, store, events
        | StoreOk(tc, store) && Backed(zip, disk, store) && IsDiskRun(tc, zip, Opened(files, disk), events)
          && AdmissibleDiskRun(tc, zip, policy, guard, Opened(files, disk), events)
        ensures TransparentOnDisk(tc, zip, Opened(files, disk), events)
      {
        DiskTransparent(tc, zip, policy, guard, files, disk, store, events);
      }
    } else {
      var r, pre :| tc.arises(r, pre) && Prints(tc, r, pre) && !guard(KeyOf(tc, r, pre));
      var capacity, events := UnguardedShows(tc, zip, policy, guard, r, pre);
      var disk := LruDisk.State(capacity, [], map[]);
      var store: map<CacheKey, CacheEntry> := map[];
      assert StoreOk(tc, store) && Backed(zip, disk, store);
    }
  }

  // ----- One example -----

  const Printing: Request := Request("", ParsedArguments("a.c", "c", None, map[OBJ := "a.o"], [], []), "/", Default)

  /** Puts in the source do not wait. Even if no two requests ever overlap, a
      warning can be lost: a late put of the same entry empties its file while a
      hit is about to read what the compiler had printed. */
  lemma {:induction false} WarningIsLost() returns (capacity: nat, events: seq<DiskEvent>)
    ensures
      var tc := Echo((r, pre) => r == Printing && pre == [7, 7]);
      var d := Opened(map[], LruDisk.State(capacity, [], map[]));
      var alone: Policy := (running, next) => false;
      && Produces(tc) && KeyDetermines(tc) && Coherent(tc, alone) && Faithful(Archive())
      && IsDiskRun(tc, Archive(), d, events)
      && AdmissibleDiskRun(tc, Archive(), alone, key => false, d, events)
      && !TransparentOnDisk(tc, Archive(), d, events)
  {
    var arises := (r, pre) => r == Printing && pre == [7, 7];
    var tc := Echo(arises);
    EchoMeetsThem(arises);
    ArchiveIsFaithful();
    capacity, events := UnguardedShows(tc, Archive(), (running, next) => false, key => false, Printing, [7, 7]);
  }
}
