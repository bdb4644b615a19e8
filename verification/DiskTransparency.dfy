/** The daemon on its disk cache. Lookups and puts go to the LRU disk cache, a
    restart scans its directory, and a hit goes on reading its archive after the
    lock on the cache is released, while a put may already be writing the same
    file again. */
module DiskTransparency {
  import opened CompilerArguments
  import opened Options
  import opened Octets
  import opened CachedCompile
  import opened CacheTransparency
  import Recency
  import LruDisk
  import LruStartup
  import opened DiskStorage

  type CacheKey = CachedCompile.Key
  type CacheEntry = CachedCompile.Entry

  // ----- The machine -----

  /** An open archive: what was in the file when its directory was read, what is
      in it now, whether it still is the file at `path`, and which streams are
      still to be read from it. */
  datatype Handle = Handle(path: Recency.Key, atOpen: Bytes, now: Bytes, linked: bool, unread: set<string>) {
    /** The file at `path` has new content. */
    function Rewritten(at: Recency.Key, bytes: Bytes): Handle {
      if linked && path == at then this.(now := bytes) else this
    }

    /** A file that is removed stays readable through its handle. */
    function Kept(files: map<Recency.Key, LruDisk.File>): Handle {
      if path in files then this else this.(linked := false)
    }
  }

  /** The store of `daemon` is not used; the disk cache is in its place. The
      lock is held by a put that has emptied its file and not yet written it. */
  datatype DiskWorld = DiskWorld(
    daemon: World,
    disk: LruDisk.State,
    handles: map<Id, Handle>,
    lock: Option<Id>)

  datatype DiskEvent =
    | Elsewhere(event: Event)
    | Lookup(id: Id, now: int)
    | ReadStream(id: Id, name: string, got: Bytes)
    | BeginPut(id: Id, now: int)
    | EndPut(id: Id, now: int)
    | Reopen(capacity: nat, listing: seq<Recency.Entry>)

  predicate HasKey(w: World, id: Id) {
    id in w.tasks && (w.tasks[id].phase.LookingUp? || w.tasks[id].phase.Unpacking?)
  }

  function KeyFor(tc: Toolchain, w: World, id: Id): CacheKey
    requires HasKey(w, id)
  {
    KeyOf(tc, w.tasks[id].request, w.tasks[id].phase.pre)
  }

  /** A hit that is still being unpacked. */
  predicate Reading(d: DiskWorld, id: Id) {
    id in d.handles && id in d.daemon.tasks && d.daemon.tasks[id].phase.Unpacking?
  }

  ghost predicate DiskEnabled(tc: Toolchain, d: DiskWorld, e: DiskEvent) {
    var w := d.daemon;
    match e
    case Elsewhere(event) =>
      && !TouchesStore(event) && Enabled(tc, w, event)
      && (event.Create? && event.id in d.handles ==> d.handles[event.id].unread == {})
    case Lookup(id, _) =>
      d.lock == None && HasKey(w, id) && w.tasks[id].phase.LookingUp? && IsKey(KeyFor(tc, w, id))
    case ReadStream(id, name, _) => Reading(d, id) && name in d.handles[id].unread
    case BeginPut(id, _) => d.lock == None && id in w.puts && IsKey(w.puts[id].key)
    case EndPut(id, _) => d.lock == Some(id) && id in w.puts && IsKey(w.puts[id].key)
    case Reopen(_, listing) => LruStartup.IsListing(d.disk.files, listing)
  }

  function AfterDisk(pre: Bytes, found: Lookup): Phase {
    match found
    case Hit(entry) => Unpacking(pre, entry, NOTHING_YET)
    case Miss => Compiling(pre, Normal, NOTHING_YET)
    case _ => Failed
  }

  function LookupStep(tc: Toolchain, zip: Zip, d: DiskWorld, id: Id, now: int): DiskWorld
    requires HasKey(d.daemon, id) && IsKey(KeyFor(tc, d.daemon, id))
  {
    var w, key := d.daemon, KeyFor(tc, d.daemon, id);
    var (disk, found) := GetEntry(d.disk, zip, key, now);
    var w' := To(w, id, AfterDisk(w.tasks[id].phase.pre, found));
    if found.Hit? && MakeKeyPath(key) in disk.files then
      var bytes := disk.files[MakeKeyPath(key)].bytes;
      DiskWorld(w', disk, d.handles[id := Handle(MakeKeyPath(key), bytes, bytes, true, {STDOUT, STDERR})], d.lock)
    else DiskWorld(w', disk, d.handles, d.lock)
  }

  /** A stream object of an untouched archive is what it is. When the file has
      been written to, reading may fail or stop anywhere, and what was read by
      then counts: `got`. */
  function ReadStep(d: DiskWorld, id: Id, name: string, got: Bytes): DiskWorld
    requires Reading(d, id)
  {
    var h, t := d.handles[id], d.daemon.tasks[id];
    var handles := d.handles[id := h.(unread := h.unread - {name})];
    if h.now == h.atOpen || name !in t.phase.entry then d.(handles := handles)
    else
      d.(handles := handles,
         daemon := To(d.daemon, id, Unpacking(t.phase.pre, t.phase.entry[name := got], t.phase.progress)))
  }

  /** `File::create` empties the file that is there. */
  function BeginStep(zip: Zip, d: DiskWorld, id: Id, now: int): DiskWorld
    requires id in d.daemon.puts && IsKey(d.daemon.puts[id].key)
  {
    var w, put := d.daemon, d.daemon.puts[id];
    var path := MakeKeyPath(put.key);
    if |zip.pack(put.entry)| > d.disk.capacity then d.(daemon := w.(puts := w.puts - {id}))
    else
      DiskWorld(w, d.disk.(files := d.disk.files[path := LruDisk.File([], now)]),
                map i | i in d.handles :: d.handles[i].Rewritten(path, []), Some(id))
  }

  /** Then it is written, and others are evicted. */
  function EndStep(zip: Zip, d: DiskWorld, id: Id, now: int): DiskWorld
    requires id in d.daemon.puts && IsKey(d.daemon.puts[id].key)
  {
    var w, put := d.daemon, d.daemon.puts[id];
    var disk := PutEntry(d.disk, zip, put.key, put.entry, now).0;
    DiskWorld(w.(puts := w.puts - {id}), disk,
              map i | i in d.handles ::
                d.handles[i].Rewritten(MakeKeyPath(put.key), zip.pack(put.entry)).Kept(disk.files),
              None)
  }

  ghost function DiskStep(tc: Toolchain, zip: Zip, d: DiskWorld, e: DiskEvent): DiskWorld
    requires Produces(tc) && DiskEnabled(tc, d, e)
  {
    match e
    case Elsewhere(event) => d.(daemon := Step(tc, d.daemon, event))
    case Lookup(id, now) => LookupStep(tc, zip, d, id, now)
    case ReadStream(id, name, got) => ReadStep(d, id, name, got)
    case BeginPut(id, now) => BeginStep(zip, d, id, now)
    case EndPut(id, now) => EndStep(zip, d, id, now)
    case Reopen(capacity, listing) =>
      DiskWorld(d.daemon.(tasks := map[], puts := map[]), LruStartup.Startup(capacity, d.disk.files, listing),
                map[], None)
  }

  // ----- Runs -----

  /** For which keys a put waits until no hit on its key is being read. */
  type Guard = CacheKey -> bool

  ghost predicate InUse(d: DiskWorld, path: Recency.Key) {
    exists id :: Reading(d, id) && d.handles[id].linked && d.handles[id].path == path
  }

  /** Requests start as the policy allows, and puts begin as the guard does. */
  ghost predicate DiskAdmissible(tc: Toolchain, policy: Policy, guard: Guard, d: DiskWorld, e: DiskEvent)
    requires DiskEnabled(tc, d, e)
  {
    && (e.Elsewhere? ==> Admissible(tc, policy, d.daemon, e.event))
    && (e.BeginPut? ==>
          var key := d.daemon.puts[e.id].key;
          guard(key) ==> !InUse(d, MakeKeyPath(key)))
  }

  ghost predicate IsDiskRun(tc: Toolchain, zip: Zip, d: DiskWorld, events: seq<DiskEvent>)
    requires Produces(tc)
    decreases |events|
  {
    events != [] ==>
      DiskEnabled(tc, d, events[0]) && IsDiskRun(tc, zip, DiskStep(tc, zip, d, events[0]), events[1..])
  }

  ghost predicate AdmissibleDiskRun(tc: Toolchain, zip: Zip, policy: Policy, guard: Guard, d: DiskWorld,
                                    events: seq<DiskEvent>)
    requires Produces(tc) && IsDiskRun(tc, zip, d, events)
    decreases |events|
  {
    events != [] ==>
      && DiskAdmissible(tc, policy, guard, d, events[0])
      && AdmissibleDiskRun(tc, zip, policy, guard, DiskStep(tc, zip, d, events[0]), events[1..])
  }

  ghost function DiskRun(tc: Toolchain, zip: Zip, d: DiskWorld, events: seq<DiskEvent>): DiskWorld
    requires Produces(tc) && IsDiskRun(tc, zip, d, events)
    decreases |events|
  {
    if events == [] then d else DiskRun(tc, zip, DiskStep(tc, zip, d, events[0]), events[1..])
  }

  /** Whatever the step finishes is answered as by a direct compile. */
  ghost predicate FinishesWell(tc: Toolchain, d: DiskWorld, d': DiskWorld)
    requires Produces(tc)
  {
    forall id :: FinishedBy(d.daemon, d'.daemon, id) ==> LikeDirect(tc, d'.daemon, id)
  }

  ghost predicate TransparentOnDisk(tc: Toolchain, zip: Zip, d: DiskWorld, events: seq<DiskEvent>)
    requires Produces(tc) && IsDiskRun(tc, zip, d, events)
    decreases |events|
  {
    events != [] ==>
      var d' := DiskStep(tc, zip, d, events[0]);
      FinishesWell(tc, d, d') && TransparentOnDisk(tc, zip, d', events[1..])
  }

  // ----- What the machine refines -----

  /** Whatever file can be unpacked holds what the store has for its key. */
  ghost predicate Backed(zip: Zip, disk: LruDisk.State, store: map<CacheKey, CacheEntry>) {
    forall key :: IsKey(key) && MakeKeyPath(key) in disk.files
      ==> var entry := zip.unpack(disk.files[MakeKeyPath(key)].bytes);
          entry.Some? ==> key in store && store[key] == entry.value
  }

  /** Every hit under way reads an untouched archive, if its key is guarded. */
  ghost predicate HandlesOk(tc: Toolchain, guard: Guard, d: DiskWorld) {
    forall id :: Reading(d, id) ==>
      var key := KeyFor(tc, d.daemon, id);
      && IsKey(key) && d.handles[id].path == MakeKeyPath(key) && d.handles[id].unread <= {STDOUT, STDERR}
      && (guard(key) ==> d.handles[id].now == d.handles[id].atOpen)
  }

  /** A put that is being written fits, and no hit has its file open, if its key
      is guarded. */
  ghost predicate LockOk(zip: Zip, guard: Guard, d: DiskWorld) {
    d.lock.Some? ==>
      d.lock.value in d.daemon.puts &&
      var put := d.daemon.puts[d.lock.value];
      && |zip.pack(put.entry)| <= d.disk.capacity
      && (IsKey(put.key) && guard(put.key) ==> !InUse(d, MakeKeyPath(put.key)))
  }

  predicate SameButStore(v: World, w: World) { v.files == w.files && v.tasks == w.tasks && v.puts == w.puts }

  /** A put belongs to a request that has been answered. */
  predicate PutsAreLate(w: World) {
    forall id :: id in w.puts ==> id in w.tasks && !w.tasks[id].Active()
  }

  /** The same but for the store, of which the disk holds a part. */
  ghost predicate Refines(tc: Toolchain, zip: Zip, guard: Guard, d: DiskWorld, w: World) {
    && SameButStore(d.daemon, w) && PutsAreLate(w) && Backed(zip, d.disk, w.store)
    && HandlesOk(tc, guard, d) && LockOk(zip, guard, d)
  }

  /** Every compile that prints something and can be a hit has a guarded key;
      without output there is no stream to be read. */
  ghost predicate Shielded(tc: Toolchain, guard: Guard) {
    forall r, pre :: tc.arises(r, pre) && Prints(tc, r, pre) ==> guard(KeyOf(tc, r, pre))
  }

  predicate Prints(tc: Toolchain, r: Request, pre: Bytes) {
    && OutputNames(r.args.outputs.Keys) && IsKey(KeyOf(tc, r, pre)) && Unpackable(tc, r, pre)
    && (tc.run(r, pre).output.stdout != [] || tc.run(r, pre).output.stderr != [])
  }

  /** What the event is for a daemon that only knows that entries may go; none
      when it does not notice. */
  function Abstractly(tc: Toolchain, zip: Zip, d: DiskWorld, e: DiskEvent): Option<Event>
    requires e.Lookup? ==> HasKey(d.daemon, e.id) && IsKey(KeyFor(tc, d.daemon, e.id))
    requires e.BeginPut? ==> e.id in d.daemon.puts
  {
    match e
    case Elsewhere(event) => Some(event)
    case Lookup(id, now) =>
      (match GetEntry(d.disk, zip, KeyFor(tc, d.daemon, id), now).1
       case Hit(_) => Some(LookedUp(id, Found))
       case Miss => Some(LookedUp(id, NotFound))
       case _ => Some(Abort(id)))
    case ReadStream(_, _, _) => None
    case BeginPut(id, _) =>
      if |zip.pack(d.daemon.puts[id].entry)| > d.disk.capacity then Some(PutDone(id, false)) else None
    case EndPut(id, _) => Some(PutDone(id, true))
    case Reopen(_, _) => Some(Restart)
  }

  ghost function After(tc: Toolchain, w: World, event: Option<Event>): World
    requires Produces(tc) && (event.Some? ==> Enabled(tc, w, event.value))
  {
    if event.Some? then Step(tc, w, event.value) else w
  }

  /** How the store must follow each operation on the disk. */
  lemma {:induction false} BackedAfter(zip: Zip, disk: LruDisk.State, store: map<CacheKey, CacheEntry>, op: Op)
    requires Faithful(zip) && Backed(zip, disk, store) && Possible(disk, op)
    ensures Backed(zip, Apply(disk, zip, op),
                   if op.PutOp? && PutsFor(disk, zip, op, op.key) then store[op.key := op.entry] else store)
  {
    var after := Apply(disk, zip, op);
    var store' := if op.PutOp? && PutsFor(disk, zip, op, op.key) then store[op.key := op.entry] else store;
    forall key | IsKey(key) && MakeKeyPath(key) in after.files
      ensures
        var entry := zip.unpack(after.files[MakeKeyPath(key)].bytes);
        entry.Some? ==> key in store' && store'[key] == entry.value
    {
      FileAfter(disk, zip, op, key);
    }
  }

  lemma {:induction false} LookupRefines(tc: Toolchain, zip: Zip, guard: Guard, d: DiskWorld, w: World, id: Id,
                                         now: int)
    requires Produces(tc) && Faithful(zip) && Refines(tc, zip, guard, d, w)
    requires DiskEnabled(tc, d, Lookup(id, now))
    ensures
      var event := Abstractly(tc, zip, d, Lookup(id, now)).value;
      Enabled(tc, w, event) && Refines(tc, zip, guard, DiskStep(tc, zip, d, Lookup(id, now)), Step(tc, w, event))
  {
    LookupFinds(tc, zip, d, w, id, now);
    HandleOpens(tc, zip, guard, d, id, now);
    BackedAfter(zip, d.disk, w.store, GetOp(KeyFor(tc, d.daemon, id), now));
  }

  lemma {:induction false} LookupFinds(tc: Toolchain, zip: Zip, d: DiskWorld, w: World, id: Id, now: int)
    requires Produces(tc) && SameButStore(d.daemon, w) && PutsAreLate(w) && Backed(zip, d.disk, w.store)
    requires DiskEnabled(tc, d, Lookup(id, now))
    ensures
      var event := Abstractly(tc, zip, d, Lookup(id, now)).value;
      && Enabled(tc, w, event) && Step(tc, w, event).store == w.store
      && SameButStore(LookupStep(tc, zip, d, id, now).daemon, Step(tc, w, event)) && PutsAreLate(Step(tc, w, event))
  {
    GetRefines(d.disk, zip, KeyFor(tc, d.daemon, id), now);
  }

  lemma {:induction false} HandleOpens(tc: Toolchain, zip: Zip, guard: Guard, d: DiskWorld, id: Id, now: int)
    requires Produces(tc) && HandlesOk(tc, guard, d) && DiskEnabled(tc, d, Lookup(id, now))
    ensures HandlesOk(tc, guard, LookupStep(tc, zip, d, id, now))
  {
    var d' := LookupStep(tc, zip, d, id, now);
    GetRefines(d.disk, zip, KeyFor(tc, d.daemon, id), now);
    forall i | Reading(d', i) && i != id
      ensures Reading(d, i) && KeyFor(tc, d'.daemon, i) == KeyFor(tc, d.daemon, i)
    {
    }
  }

  /** An entry that has a stream object comes from a compile that printed it. */
  lemma {:induction false} StreamsArePrinted(tc: Toolchain, w: World, id: Id, name: string)
    requires Produces(tc) && KeyDetermines(tc) && Inv(tc, w)
    requires id in w.tasks && w.tasks[id].phase.Unpacking?
    requires IsKey(KeyOf(tc, w.tasks[id].request, w.tasks[id].phase.pre))
    requires (name == STDOUT || name == STDERR) && name in w.tasks[id].phase.entry
    ensures tc.arises(w.tasks[id].request, w.tasks[id].phase.pre)
    ensures Prints(tc, w.tasks[id].request, w.tasks[id].phase.pre)
  {
    var t := w.tasks[id];
    assert TaskOk(tc, w.files, t);
    UnpackPacked(tc, t.request, t.phase.pre, t.phase.entry);
    var r', pre' :| PacksThis(tc, KeyOf(tc, t.request, t.phase.pre), t.phase.entry, r', pre');
    assert tc.run(r', pre') == tc.run(t.request, t.phase.pre);
    StreamNamesApart(r'.args.outputs.Keys);
  }

  /** A guarded stream is read as it is. */
  lemma {:induction false} ReadsTruly(tc: Toolchain, zip: Zip, guard: Guard, d: DiskWorld, w: World, id: Id,
                                      name: string, got: Bytes)
    requires Produces(tc) && KeyDetermines(tc) && Shielded(tc, guard) && Inv(tc, w)
    requires Refines(tc, zip, guard, d, w) && DiskEnabled(tc, d, ReadStream(id, name, got))
    ensures ReadStep(d, id, name, got)
         == d.(handles := d.handles[id := d.handles[id].(unread := d.handles[id].unread - {name})])
  {
    assert IsKey(KeyFor(tc, d.daemon, id)) && d.handles[id].unread <= {STDOUT, STDERR};
    if name in w.tasks[id].phase.entry {
      StreamsArePrinted(tc, w, id, name);
      assert guard(KeyFor(tc, d.daemon, id));
    }
  }

  lemma {:induction false} ReadRefines(tc: Toolchain, zip: Zip, guard: Guard, d: DiskWorld, w: World, id: Id,
                                       name: string)
    requires Produces(tc) && Refines(tc, zip, guard, d, w) && Reading(d, id)
    ensures
      var h := d.handles[id];
      Refines(tc, zip, guard, d.(handles := d.handles[id := h.(unread := h.unread - {name})]), w)
  {
    var d' := d.(handles := d.handles[id := d.handles[id].(unread := d.handles[id].unread - {name})]);
    forall path ensures InUse(d', path) ==> InUse(d, path) {
      if i :| Reading(d', i) && d'.handles[i].linked && d'.handles[i].path == path { assert Reading(d, i); }
    }
  }

  lemma {:induction false} BeginRefines(tc: Toolchain, zip: Zip, guard: Guard, d: DiskWorld, w: World, id: Id,
                                        now: int)
    requires Produces(tc) && Faithful(zip) && Refines(tc, zip, guard, d, w) && DiskEnabled(tc, d, BeginPut(id, now))
    requires guard(d.daemon.puts[id].key) ==> !InUse(d, MakeKeyPath(d.daemon.puts[id].key))
    ensures
      var event := Abstractly(tc, zip, d, BeginPut(id, now));
      && (event.Some? ==> Enabled(tc, w, event.value))
      && Refines(tc, zip, guard, DiskStep(tc, zip, d, BeginPut(id, now)), After(tc, w, event))
  {
    var d' := DiskStep(tc, zip, d, BeginPut(id, now));
    var put := d.daemon.puts[id];
    var path := MakeKeyPath(put.key);
    if |zip.pack(put.entry)| <= d.disk.capacity {
      forall i | Reading(d', i)
        ensures guard(KeyFor(tc, d'.daemon, i)) ==> d'.handles[i].now == d'.handles[i].atOpen
      {
        assert Reading(d, i);
        if d.handles[i].linked && d.handles[i].path == path {
          assert InUse(d, path);
          KeyPathInjective(KeyFor(tc, d.daemon, i), put.key);
        }
      }
      assert InUse(d', path) ==> InUse(d, path);
    }
  }

  lemma {:induction false} EndRefines(tc: Toolchain, zip: Zip, guard: Guard, d: DiskWorld, w: World, id: Id, now: int)
    requires Produces(tc) && Faithful(zip) && Refines(tc, zip, guard, d, w) && DiskEnabled(tc, d, EndPut(id, now))
    ensures
      && Enabled(tc, w, PutDone(id, true))
      && Refines(tc, zip, guard, DiskStep(tc, zip, d, EndPut(id, now)), Step(tc, w, PutDone(id, true)))
  {
    var d' := DiskStep(tc, zip, d, EndPut(id, now));
    var put := d.daemon.puts[id];
    BackedAfter(zip, d.disk, w.store, PutOp(put.key, put.entry, now));
    forall i | Reading(d', i)
      ensures
        var key := KeyFor(tc, d'.daemon, i);
        && IsKey(key) && d'.handles[i].path == MakeKeyPath(key)
        && (guard(key) ==> d'.handles[i].now == d'.handles[i].atOpen)
    {
      assert Reading(d, i);
      if d.handles[i].linked && d.handles[i].path == MakeKeyPath(put.key) {
        assert InUse(d, MakeKeyPath(put.key));
        KeyPathInjective(KeyFor(tc, d.daemon, i), put.key);
      }
    }
  }

  lemma {:induction false} ElsewhereRefines(tc: Toolchain, zip: Zip, guard: Guard, d: DiskWorld, w: World, e: Event)
    requires Produces(tc) && Refines(tc, zip, guard, d, w) && DiskEnabled(tc, d, Elsewhere(e))
    ensures Enabled(tc, w, e) && Refines(tc, zip, guard, DiskStep(tc, zip, d, Elsewhere(e)), Step(tc, w, e))
  {
    StorelessStep(tc, d.daemon, w, e);
    StaysReading(tc, zip, d, e);
    PutsStayLate(tc, w, e);
    HandlesKept(tc, zip, guard, d, DiskStep(tc, zip, d, Elsewhere(e)));
  }

  lemma {:induction false} PutsStayLate(tc: Toolchain, w: World, e: Event)
    requires Produces(tc) && PutsAreLate(w) && !TouchesStore(e) && Enabled(tc, w, e)
    ensures PutsAreLate(Step(tc, w, e))
    ensures forall id :: id in w.puts ==> id in Step(tc, w, e).puts && Step(tc, w, e).puts[id] == w.puts[id]
    ensures forall id :: id in Step(tc, w, e).puts && id !in w.puts ==> id in w.tasks && w.tasks[id].Active()
  {
  }

  /** Nothing changes for the handles and the lock. */
  lemma {:induction false} HandlesKept(tc: Toolchain, zip: Zip, guard: Guard, d: DiskWorld, d': DiskWorld)
    requires HandlesOk(tc, guard, d) && LockOk(zip, guard, d)
    requires d'.handles == d.handles && d'.lock == d.lock && d'.disk == d.disk
    requires forall id :: Reading(d', id) ==> Reading(d, id) && KeyFor(tc, d'.daemon, id) == KeyFor(tc, d.daemon, id)
    requires forall id :: id in d.daemon.puts ==> id in d'.daemon.puts && d'.daemon.puts[id] == d.daemon.puts[id]
    ensures HandlesOk(tc, guard, d') && LockOk(zip, guard, d')
  {
    forall path ensures InUse(d', path) ==> InUse(d, path) {
      if i :| Reading(d', i) && d'.handles[i].linked && d'.handles[i].path == path { assert Reading(d, i); }
    }
  }

  /** Steps without the store are the same whatever it holds, and leave the
      pending puts that there are. */
  lemma {:induction false} StorelessStep(tc: Toolchain, v: World, w: World, e: Event)
    requires Produces(tc) && SameButStore(v, w) && !TouchesStore(e) && Enabled(tc, v, e)
    ensures Enabled(tc, w, e) && SameButStore(Step(tc, v, e), Step(tc, w, e)) && Step(tc, w, e).store == w.store
  {
  }

  lemma {:induction false} StaysReading(tc: Toolchain, zip: Zip, d: DiskWorld, e: Event)
    requires Produces(tc) && DiskEnabled(tc, d, Elsewhere(e))
    ensures
      var d' := DiskStep(tc, zip, d, Elsewhere(e));
      forall id :: Reading(d', id) ==> Reading(d, id) && KeyFor(tc, d'.daemon, id) == KeyFor(tc, d.daemon, id)
  {
  }

  lemma {:induction false} ReopenRefines(tc: Toolchain, zip: Zip, guard: Guard, d: DiskWorld, w: World, capacity: nat,
                                         listing: seq<Recency.Entry>)
    requires Produces(tc) && Faithful(zip) && Refines(tc, zip, guard, d, w)
    requires DiskEnabled(tc, d, Reopen(capacity, listing))
    ensures Refines(tc, zip, guard, DiskStep(tc, zip, d, Reopen(capacity, listing)), Step(tc, w, Restart))
  {
    BackedAfter(zip, d.disk, w.store, ReopenOp(capacity, listing));
  }

  /** The step is one on a store that may drop entries, or none. */
  ghost predicate Follows(tc: Toolchain, zip: Zip, guard: Guard, d: DiskWorld, w: World, e: DiskEvent)
    requires Produces(tc) && DiskEnabled(tc, d, e)
  {
    var event := Abstractly(tc, zip, d, e);
    && (event.Some? ==> Enabled(tc, w, event.value))
    && Refines(tc, zip, guard, DiskStep(tc, zip, d, e), After(tc, w, event))
  }

  lemma {:induction false} ReadFollows(tc: Toolchain, zip: Zip, guard: Guard, d: DiskWorld, w: World, e: DiskEvent)
    requires Produces(tc) && KeyDetermines(tc) && Shielded(tc, guard) && Inv(tc, w)
    requires Refines(tc, zip, guard, d, w) && DiskEnabled(tc, d, e) && e.ReadStream?
    ensures Follows(tc, zip, guard, d, w, e)
  {
    ReadsTruly(tc, zip, guard, d, w, e.id, e.name, e.got);
    ReadRefines(tc, zip, guard, d, w, e.id, e.name);
  }

  lemma {:induction false} PutFollows(tc: Toolchain, zip: Zip, policy: Policy, guard: Guard, d: DiskWorld, w: World,
                                      e: DiskEvent)
    requires Produces(tc) && Faithful(zip) && Refines(tc, zip, guard, d, w) && DiskEnabled(tc, d, e)
    requires DiskAdmissible(tc, policy, guard, d, e) && (e.BeginPut? || e.EndPut?)
    ensures Follows(tc, zip, guard, d, w, e)
  {
    match e
    case BeginPut(id, now) => BeginRefines(tc, zip, guard, d, w, id, now);
    case EndPut(id, now) => EndRefines(tc, zip, guard, d, w, id, now);
  }

  lemma {:induction false} OtherFollows(tc: Toolchain, zip: Zip, guard: Guard, d: DiskWorld, w: World, e: DiskEvent)
    requires Produces(tc) && Faithful(zip) && Refines(tc, zip, guard, d, w) && DiskEnabled(tc, d, e)
    requires e.Elsewhere? || e.Lookup? || e.Reopen?
    ensures Follows(tc, zip, guard, d, w, e)
  {
    match e
    case Elsewhere(event) => ElsewhereRefines(tc, zip, guard, d, w, event);
    case Lookup(id, now) => LookupRefines(tc, zip, guard, d, w, id, now);
    case Reopen(capacity, listing) => ReopenRefines(tc, zip, guard, d, w, capacity, listing);
  }

  lemma {:induction false} StepRefines(tc: Toolchain, zip: Zip, policy: Policy, guard: Guard, d: DiskWorld, w: World,
                                       e: DiskEvent)
    requires Produces(tc) && KeyDetermines(tc) && Faithful(zip) && Shielded(tc, guard) && Inv(tc, w)
    requires Refines(tc, zip, guard, d, w) && DiskEnabled(tc, d, e) && DiskAdmissible(tc, policy, guard, d, e)
    ensures Follows(tc, zip, guard, d, w, e)
  {
    match e
    case ReadStream(_, _, _) => ReadFollows(tc, zip, guard, d, w, e);
    case BeginPut(_, _) => PutFollows(tc, zip, policy, guard, d, w, e);
    case EndPut(_, _) => PutFollows(tc, zip, policy, guard, d, w, e);
    case _ => OtherFollows(tc, zip, guard, d, w, e);
  }

  // ----- Transparency -----

  lemma {:induction false} AfterIsTransparent(tc: Toolchain, policy: Policy, w: World, event: Option<Event>)
    requires Produces(tc) && KeyDetermines(tc) && Coherent(tc, policy) && Inv(tc, w)
    requires event.Some? ==> Enabled(tc, w, event.value) && Admissible(tc, policy, w, event.value)
    ensures Inv(tc, After(tc, w, event))
    ensures forall id :: FinishedBy(w, After(tc, w, event), id) ==> LikeDirect(tc, After(tc, w, event), id)
  {
    if event.Some? { StepIsTransparent(tc, policy, w, event.value); }
  }

  lemma {:induction false} StepTransparentOnDisk(tc: Toolchain, zip: Zip, policy: Policy, guard: Guard, d: DiskWorld,
                                                 w: World, e: DiskEvent) returns (w': World)
    requires Produces(tc) && KeyDetermines(tc) && Coherent(tc, policy) && Faithful(zip) && Shielded(tc, guard)
    requires Refines(tc, zip, guard, d, w) && Inv(tc, w)
    requires DiskEnabled(tc, d, e) && DiskAdmissible(tc, policy, guard, d, e)
    ensures Refines(tc, zip, guard, DiskStep(tc, zip, d, e), w') && Inv(tc, w')
    ensures FinishesWell(tc, d, DiskStep(tc, zip, d, e))
  {
    var event, d' := Abstractly(tc, zip, d, e), DiskStep(tc, zip, d, e);
    StepRefines(tc, zip, policy, guard, d, w, e);
    w' := After(tc, w, event);
    AfterIsTransparent(tc, policy, w, event);
    forall id | FinishedBy(d.daemon, d'.daemon, id) ensures LikeDirect(tc, d'.daemon, id) {
      assert FinishedBy(w, w', id);
    }
  }

  lemma {:induction false} RunTransparentOnDisk(tc: Toolchain, zip: Zip, policy: Policy, guard: Guard, d: DiskWorld,
                                                w: World, events: seq<DiskEvent>)
    requires Produces(tc) && KeyDetermines(tc) && Coherent(tc, policy) && Faithful(zip) && Shielded(tc, guard)
    requires Refines(tc, zip, guard, d, w) && Inv(tc, w)
    requires IsDiskRun(tc, zip, d, events) && AdmissibleDiskRun(tc, zip, policy, guard, d, events)
    ensures TransparentOnDisk(tc, zip, d, events)
    decreases |events|
  {
    if events != [] {
      var w' := StepTransparentOnDisk(tc, zip, policy, guard, d, w, events[0]);
      RunTransparentOnDisk(tc, zip, policy, guard, DiskStep(tc, zip, d, events[0]), w', events[1..]);
    }
  }

  function Opened(files: map<Path, Bytes>, disk: LruDisk.State): DiskWorld {
    DiskWorld(Initial(files, map[]), disk, map[], None)
  }

  /** Transparency on the disk cache. Open a daemon on any directory, of which
      whatever unpacks packs a compile for its key. When puts wait for the hits
      on their key to be read, for the keys of compiles that print something,
      then in every run of lookups, evictions, re-inserts, late puts and restarts
      each request is answered as by a direct compile. */
  lemma {:induction false} DiskTransparent(tc: Toolchain, zip: Zip, policy: Policy, guard: Guard,
                                           files: map<Path, Bytes>, disk: LruDisk.State,
                                           store: map<CacheKey, CacheEntry>, events: seq<DiskEvent>)
    requires Produces(tc) && KeyDetermines(tc) && Coherent(tc, policy) && Faithful(zip) && Shielded(tc, guard)
    requires StoreOk(tc, store) && Backed(zip, disk, store)
    requires IsDiskRun(tc, zip, Opened(files, disk), events)
    requires AdmissibleDiskRun(tc, zip, policy, guard, Opened(files, disk), events)
    ensures TransparentOnDisk(tc, zip, Opened(files, disk), events)
  {
    RunTransparentOnDisk(tc, zip, policy, guard, Opened(files, disk), Initial(files, store), events);
  }
}
