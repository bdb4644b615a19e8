/** `DiskCache`: the LRU disk cache as the storage of the compile path. Over
    every run, re-inserts included, it behaves as a store that may drop any
    entry at any time. */
module DiskStorage {
  import opened Options
  import opened Octets
  import Recency
  import opened LruDisk
  import opened LruStartup
  import opened LruDiskCaches
  import CachedCompile

  type Key = CachedCompile.Key
  type Entry = CachedCompile.Entry

  /** The zip format, as what its reader and writer do. */
  datatype Zip = Zip(pack: Entry -> Bytes, unpack: Bytes -> Option<Entry>)

  /** What was packed unpacks, and an empty file is no archive. */
  ghost predicate Faithful(zip: Zip) {
    zip.unpack([]) == None && forall e: Entry :: zip.unpack(zip.pack(e)) == Some(e)
  }

  /** Keys are hexadecimal digests; slicing the first two characters of a
      shorter string would panic. */
  predicate IsKey(key: Key) { |key| >= 2 }

  function MakeKeyPath(key: Key): Recency.Key
    requires IsKey(key)
  {
    key[0..1] + "/" + key[1..2] + "/" + key
  }

  /** Two directories, named by the first two characters. */
  lemma {:induction false} KeyPathParts(first: char, second: char, later: string)
    ensures
      var key := [first, second] + later;
      IsKey(key) && MakeKeyPath(key) == [first] + "/" + [second] + "/" + key
  {
    assert ([first, second] + later)[0..1] == [first] && ([first, second] + later)[1..2] == [second];
  }

  lemma {:induction false} KeyPathInjective(a: Key, b: Key)
    requires IsKey(a) && IsKey(b) && MakeKeyPath(a) == MakeKeyPath(b)
    ensures a == b
  {
    assert MakeKeyPath(a)[4..] == a && MakeKeyPath(b)[4..] == b;
  }

  datatype Lookup = Hit(entry: Entry) | Miss | StorageError | Died

  function GetEntry(s: State, zip: Zip, key: Key, now: int): (State, Lookup)
    requires IsKey(key)
  {
    var (t, reply) := LruDisk.Get(s, MakeKeyPath(key), now);
    match reply
    case Opened(bytes) => (t, if zip.unpack(bytes).Some? then Hit(zip.unpack(bytes).value) else StorageError)
    case FileNotInCache => (t, Miss)
    case IoError => (t, StorageError)
    case _ => (t, Died)
  }

  function PutEntry(s: State, zip: Zip, key: Key, entry: Entry, now: int): (State, Reply)
    requires IsKey(key)
  {
    InsertBy(s, MakeKeyPath(key), File(zip.pack(entry), now))
  }

  /** What the cache can still give out: indexed files that are on disk. */
  function Contents(s: State): map<Recency.Key, Bytes> {
    map p | p in s.files && p in Recency.Keys(s.entries) :: s.files[p].bytes
  }

  ghost predicate Within(small: map<Recency.Key, Bytes>, large: map<Recency.Key, Bytes>) {
    forall p :: p in small ==> p in large && small[p] == large[p]
  }

  // ----- One operation -----

  lemma {:induction false} EvictShrinks(s: State, need: nat)
    ensures Recency.Keys(Evict(s, need).0.entries) <= Recency.Keys(s.entries)
    ensures Evict(s, need).0.files.Keys <= s.files.Keys
    ensures forall p :: p in Evict(s, need).0.files ==> Evict(s, need).0.files[p] == s.files[p]
    decreases |s.entries|
  {
    if Recency.Total(s.entries) + need > s.capacity && s.entries != [] && s.entries[0].key in s.files {
      EvictShrinks(s.(entries := s.entries[1..], files := s.files - {s.entries[0].key}), need);
    }
  }

  lemma {:induction false} MakeRoomShrinks(es: seq<Recency.Entry>, capacity: nat, need: nat)
    ensures Recency.Keys(Recency.MakeRoom(es, capacity, need)) <= Recency.Keys(es)
  {
    if es != [] && Recency.Total(es) + need > capacity {
      MakeRoomShrinks(es[1..], capacity, need);
    }
  }

  /** A put adds its entry and drops any others, possibly its own. */
  lemma {:induction false} PutRefines(s: State, zip: Zip, key: Key, entry: Entry, now: int)
    requires IsKey(key)
    ensures
      var (t, reply) := PutEntry(s, zip, key, entry, now);
      if reply == FileTooLarge then t == s
      else Within(Contents(t), Contents(s)[MakeKeyPath(key) := zip.pack(entry)])
  {
    var p, file := MakeKeyPath(key), File(zip.pack(entry), now);
    if |file.bytes| <= s.capacity {
      var w := s.(files := s.files[p := file]);
      EvictShrinks(w, |file.bytes|);
      var room := Evict(w, |file.bytes|).0;
      var e := Recency.Entry(p, |file.bytes|);
      MakeRoomShrinks(Recency.Without(room.entries, p) + [e], s.capacity, 0);
      Recency.KeysConcat(Recency.Without(room.entries, p), [e]);
      Recency.WithoutKeys(room.entries, p);
      assert Recency.Keys([e]) == {p};
    }
  }

  /** A lookup drops nothing, misses exactly what is not indexed, hits exactly
      what is indexed, there and whole, and otherwise is an error. */
  lemma {:induction false} GetRefines(s: State, zip: Zip, key: Key, now: int)
    requires IsKey(key)
    ensures
      var (t, found) := GetEntry(s, zip, key, now);
      && Contents(t) == Contents(s)
      && (found.Hit? ==>
            && MakeKeyPath(key) in Contents(s)
            && zip.unpack(Contents(s)[MakeKeyPath(key)]) == Some(found.entry))
      && (found.Miss? <==> MakeKeyPath(key) !in Recency.Keys(s.entries))
      && (MakeKeyPath(key) in Contents(s) && zip.unpack(Contents(s)[MakeKeyPath(key)]).Some? ==> found.Hit?)
      && found != Died
  {
    var p := MakeKeyPath(key);
    if p in Recency.Keys(s.entries) {
      var e := Recency.From(s.entries, p)[0];
      Recency.KeysConcat(Recency.Without(s.entries, p), [e]);
      Recency.WithoutKeys(s.entries, p);
      assert Recency.Keys([e]) == {p};
    }
  }

  /** After a put the entry can be looked up if and only if eviction did not
      reach its own file, as it can when the key was there before. */
  lemma {:induction false} PutThenGet(s: State, zip: Zip, key: Key, entry: Entry, now: int, later: int)
    requires Faithful(zip) && IsKey(key) && OnDisk(s) && |zip.pack(entry)| <= s.capacity
    ensures
      var p, size := MakeKeyPath(key), |zip.pack(entry)|;
      var (t, reply) := PutEntry(s, zip, key, entry, now);
      && reply == Done
      && GetEntry(t, zip, key, later).1 == if KeepsOwnFile(s, p, size) then Hit(entry) else StorageError
  {
    var p, file := MakeKeyPath(key), File(zip.pack(entry), now);
    InsertOutcome(s, p, file);
    var n := Evicted(s, |file.bytes|);
    OwnFileKept(s, p, |file.bytes|);
    var e := Recency.Entry(p, |file.bytes|);
    Recency.KeysConcat(Recency.Without(s.entries[n..], p), [e]);
    assert Recency.Keys([e]) == {p};
  }

  // ----- Runs -----

  /** Reopening is a restart on the directory as it is, perhaps with another
      capacity. */
  datatype Op =
    | PutOp(key: Key, entry: Entry, now: int)
    | GetOp(key: Key, now: int)
    | ReopenOp(capacity: nat, listing: seq<Recency.Entry>)

  ghost predicate Possible(s: State, op: Op) {
    if op.ReopenOp? then IsListing(s.files, op.listing) else IsKey(op.key)
  }

  ghost function Apply(s: State, zip: Zip, op: Op): State
    requires Possible(s, op)
  {
    match op
    case PutOp(key, entry, now) => PutEntry(s, zip, key, entry, now).0
    case GetOp(key, now) => GetEntry(s, zip, key, now).0
    case ReopenOp(capacity, listing) => Startup(capacity, s.files, listing)
  }

  ghost predicate IsRun(s: State, zip: Zip, ops: seq<Op>)
    decreases |ops|
  {
    ops != [] ==> Possible(s, ops[0]) && IsRun(Apply(s, zip, ops[0]), zip, ops[1..])
  }

  ghost function Run(s: State, zip: Zip, ops: seq<Op>): State
    requires IsRun(s, zip, ops)
    decreases |ops|
  {
    if ops == [] then s else Run(Apply(s, zip, ops[0]), zip, ops[1..])
  }

  predicate PutsFor(s: State, zip: Zip, op: Op, key: Key) {
    op.PutOp? && op.key == key && |zip.pack(op.entry)| <= s.capacity
  }

  /** The last entry put for `key` along a run that was not refused as too
      large. */
  ghost function LastPut(s: State, zip: Zip, ops: seq<Op>, key: Key): Option<Entry>
    requires IsRun(s, zip, ops)
    decreases |ops|
  {
    if ops == [] then None
    else
      var later := LastPut(Apply(s, zip, ops[0]), zip, ops[1..], key);
      if later.Some? then later
      else if PutsFor(s, zip, ops[0], key) then Some(ops[0].entry)
      else None
  }

  /** Where the file of a key comes from, if there is one after an operation. */
  lemma {:induction false} FileAfter(s: State, zip: Zip, op: Op, key: Key)
    requires IsKey(key) && Possible(s, op)
    ensures
      var p, files := MakeKeyPath(key), Apply(s, zip, op).files;
      p in files ==>
        if PutsFor(s, zip, op, key) then files[p].bytes == zip.pack(op.entry)
        else p in s.files && files[p].bytes == s.files[p].bytes
  {
    match op
    case PutOp(k, entry, now) =>
      EvictShrinks(s.(files := s.files[MakeKeyPath(k) := File(zip.pack(entry), now)]), |zip.pack(entry)|);
      if k != key && MakeKeyPath(k) == MakeKeyPath(key) { KeyPathInjective(k, key); }
    case GetOp(k, now) =>
    case ReopenOp(capacity, listing) => StartupOptimal(capacity, s.files, listing);
  }

  lemma {:induction false} HoldsLastPut(s: State, zip: Zip, ops: seq<Op>, key: Key)
    requires IsKey(key) && IsRun(s, zip, ops)
    ensures
      var p, files, last := MakeKeyPath(key), Run(s, zip, ops).files, LastPut(s, zip, ops, key);
      p in files ==>
        if last.Some? then files[p].bytes == zip.pack(last.value)
        else p in s.files && files[p].bytes == s.files[p].bytes
    decreases |ops|
  {
    if ops != [] {
      FileAfter(s, zip, ops[0], key);
      HoldsLastPut(Apply(s, zip, ops[0]), zip, ops[1..], key);
    }
  }

  /** The storage contract over whole runs, restarts included, from any
      directory: a hit gives back exactly the entry last put under its key, or
      what was there from the start. */
  lemma {:induction false} HitIsLastPut(s: State, zip: Zip, ops: seq<Op>, key: Key, now: int)
    requires Faithful(zip) && IsKey(key) && IsRun(s, zip, ops)
    ensures
      var found, last := GetEntry(Run(s, zip, ops), zip, key, now).1, LastPut(s, zip, ops, key);
      found.Hit? ==>
        if last.Some? then found.entry == last.value
        else MakeKeyPath(key) in s.files && zip.unpack(s.files[MakeKeyPath(key)].bytes) == Some(found.entry)
  {
    HoldsLastPut(s, zip, ops, key);
    GetRefines(Run(s, zip, ops), zip, key, now);
  }

  /** The two storage calls on the shared cache, under its lock. */
  class DiskCache {
    const cache: LruDiskCache
    const zip: Zip

    constructor (cache: LruDiskCache, zip: Zip)
      ensures this.cache == cache && this.zip == zip
    {
      this.cache, this.zip := cache, zip;
    }

    method Get(key: Key, now: int) returns (found: Lookup)
      requires IsKey(key) && cache.Valid()
      modifies cache.lru, cache.dir
      ensures cache.Valid()
      ensures (cache.Value(), found) == GetEntry(old(cache.Value()), zip, key, now)
      ensures Contents(cache.Value()) == Contents(old(cache.Value()))
    {
      GetRefines(cache.Value(), zip, key, now);
      var reply := cache.Get(MakeKeyPath(key), now);
      match reply
      case Opened(bytes) =>
        var entry := zip.unpack(bytes);
        found := if entry.Some? then Hit(entry.value) else StorageError;
      case FileNotInCache => found := Miss;
      case IoError => found := StorageError;
      case _ => found := Died;
    }

    method FinishPut(key: Key, entry: Entry, now: int) returns (reply: Reply)
      requires IsKey(key) && cache.Valid()
      modifies cache.lru, cache.dir
      ensures cache.Valid()
      ensures (cache.Value(), reply) == PutEntry(old(cache.Value()), zip, key, entry, now)
      ensures if reply == FileTooLarge then cache.Value() == old(cache.Value())
              else Within(Contents(cache.Value()), Contents(old(cache.Value()))[MakeKeyPath(key) := zip.pack(entry)])
    {
      PutRefines(cache.Value(), zip, key, entry, now);
      reply := cache.InsertBytes(MakeKeyPath(key), zip.pack(entry), now);
    }
  }
}
