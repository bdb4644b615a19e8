/** The disk cache as it is: an index and a directory updated in place. */
module LruDiskCaches {
  import opened Octets
  import opened Recency
  import opened LruDisk
  import opened LruStartup

  /** A directory of files, by path relative to the cache root. */
  class Directory {
    var files: map<Key, File>

    constructor (files: map<Key, File>)
      ensures this.files == files
    {
      this.files := files;
    }
  }

  /** The `lru_cache` crate's map, metered by file size. */
  class LruCache {
    const capacity: nat
    var entries: seq<Entry>
    var measure: nat

    ghost predicate Valid()
      reads this
    {
      measure == Total(entries)
    }

    constructor (capacity: nat)
      ensures Valid() && entries == [] && this.capacity == capacity
    {
      this.capacity := capacity;
      entries, measure := [], 0;
    }

    /** Takes the least recently used entry out. */
    method RemoveLru() returns (removed: seq<Entry>)
      requires Valid()
      modifies this
      ensures Valid()
      ensures old(entries) == removed + entries
      ensures |removed| == if old(entries) == [] then 0 else 1
    {
      if entries == [] {
        removed := [];
      } else {
        removed := [entries[0]];
        measure := measure - entries[0].size;
        entries := entries[1..];
      }
    }

    method Get(k: Key) returns (found: bool)
      requires Valid() && Distinct(entries)
      modifies this
      ensures Valid()
      ensures found == (k in Keys(old(entries))) && entries == LruTouch(old(entries), k)
    {
      found := k in Keys(entries);
      if found {
        TouchPermutes(entries, k);
        entries := LruTouch(entries, k);
      }
    }

    /** Adds the entry as the youngest, replacing one with its key, and then
        evicts while over the capacity. */
    method Insert(e: Entry)
      requires Valid()
      modifies this
      ensures Valid() && entries == LruInsert(old(entries), capacity, e)
    {
      entries := Without(entries, e.key) + [e];
      measure := Total(entries);
      while measure > capacity
        invariant Valid()
        invariant MakeRoom(entries, capacity, 0) == LruInsert(old(entries), capacity, e)
        decreases |entries|
      {
        var _ := RemoveLru();
      }
    }
  }

  /** `get_all_files`: the walk visits files in no particular order, and the
      list is then sorted by mtime. */
  method GetAllFiles(dir: Directory) returns (listing: seq<Entry>)
    ensures IsListing(dir.files, listing)
  {
    var todo := dir.files.Keys;
    listing := [];
    while todo != {}
      invariant todo <= dir.files.Keys
      invariant Keys(listing) == dir.files.Keys - todo
      invariant Distinct(listing) && InMtimeOrder(listing, dir.files)
      invariant forall e :: e in listing ==> Recorded(e, dir.files)
      decreases todo
    {
      var k :| k in todo;
      var e := Entry(k, |dir.files[k].bytes|);
      PlacedSomewhere(listing, e, dir.files);
      PlacedInOrder(listing, e, dir.files);
      listing := PlaceByMtime(listing, e, dir.files);
      todo := todo - {k};
    }
  }

  class LruDiskCache {
    const lru: LruCache
    const dir: Directory

    ghost predicate Valid()
      reads this, lru
    {
      lru.Valid() && Distinct(lru.entries)
    }

    /** The cache and its directory as a value. */
    ghost function Value(): State
      reads this, lru, dir
    {
      State(lru.capacity, lru.entries, dir.files)
    }

    /** `new` and `init`: scan the directory, oldest file first. `FileTooLarge`
        cannot come back from `AddFile` here, and neither can a panic. */
    constructor (dir: Directory, capacity: nat)
      modifies dir
      ensures Valid() && this.dir == dir && fresh(lru)
      ensures exists listing :: IsListing(old(dir.files), listing)
                                && Value() == Startup(capacity, old(dir.files), listing)
      ensures Agree(Value())
    {
      this.dir := dir;
      lru := new LruCache(capacity);
      new;
      var listing := GetAllFiles(dir);
      ghost var start := State(capacity, [], old(dir.files));
      StartupOptimal(capacity, old(dir.files), listing);
      for i := 0 to |listing|
        invariant Valid() && this.dir == dir && fresh(lru)
        invariant lru.capacity == capacity
        invariant Scanning(Value(), listing[..i], Keys(listing[i..]))
        invariant InitScan(Value(), listing[i..]) == InitScan(start, listing)
      {
        var e := listing[i];
        assert listing[i..][0] == e && listing[i..][1..] == listing[i + 1..];
        assert listing[..i] + [e] == listing[..i + 1];
        assert e.key !in Keys(listing[i + 1..]) by {
          if e.key in Keys(listing[i + 1..]) {
            var j := IndexOf(listing[i + 1..], e.key);
            assert false;
          }
        }
        ScanStep(Value(), listing[..i], e, Keys(listing[i + 1..]));
        if e.size > lru.capacity {
          dir.files := dir.files - {e.key};
        } else {
          var reply := AddFile(e.key, e.size);
          assert reply == Done;
        }
      }
    }

    /** Evicts until the file fits, then indexes it. For a storable size whose
        indexed files are all on disk it never fails, and evicts the shortest
        prefix of the recency order that makes room. */
    method AddFile(k: Key, size: nat) returns (reply: Reply)
      requires Valid()
      modifies lru, dir
      ensures Valid()
      ensures (Value(), reply) == LruDisk.AddFile(old(Value()), k, size)
      ensures size <= lru.capacity && OnDisk(old(Value())) ==> reply == Done
    {
      if size > lru.capacity { return FileTooLarge; }
      ghost var before := Value();
      if OnDisk(before) { EvictRemovesOldest(before, size); }
      while lru.measure + size > lru.capacity
        invariant Valid()
        invariant Evict(Value(), size) == Evict(before, size)
        invariant OnDisk(before) ==> OnDisk(Value())
        decreases |lru.entries|
      {
        ghost var here := lru.entries;
        var removed := lru.RemoveLru();
        assert lru.entries == here[1..];
        if removed[0].key !in dir.files { return Panicked; }
        dir.files := dir.files - {removed[0].key};
      }
      ghost var room := lru.entries;
      WithoutDistinct(room, k);
      WithoutTotal(room, k);
      TotalConcat(Without(room, k), [Entry(k, size)]);
      InsertedKeys(room, Entry(k, size));
      lru.Insert(Entry(k, size));
      // The crate had nothing left to evict on its own.
      assert lru.entries == Without(room, k) + [Entry(k, size)];
      reply := Done;
    }

    /** `insert_by` with a writer that leaves `file` at the new path. */
    method InsertBy(k: Key, file: File) returns (reply: Reply)
      requires Valid()
      modifies lru, dir
      ensures Valid()
      ensures (Value(), reply) == LruDisk.InsertBy(old(Value()), k, file)
      ensures reply == FileTooLarge <==> |file.bytes| > lru.capacity
      ensures Agree(old(Value())) && reply == Done
              ==> (Agree(Value()) <==> KeepsOwnFile(old(Value()), k, |file.bytes|))
    {
      if |file.bytes| > lru.capacity { return FileTooLarge; }
      if Agree(Value()) { InsertAgreement(Value(), k, file); }
      dir.files := dir.files[k := file];
      // The removal of the file after a failed `add_file` is dead code: the
      // size has been checked.
      reply := AddFile(k, |file.bytes|);
    }

    method InsertBytes(k: Key, bytes: Bytes, now: int) returns (reply: Reply)
      requires Valid()
      modifies lru, dir
      ensures Valid()
      ensures (Value(), reply) == LruDisk.InsertBy(old(Value()), k, File(bytes, now))
    {
      reply := InsertBy(k, File(bytes, now));
    }

    method Get(k: Key, now: int) returns (reply: Reply)
      requires Valid()
      modifies lru, dir
      ensures Valid()
      ensures (Value(), reply) == LruDisk.Get(old(Value()), k, now)
    {
      if k in Keys(lru.entries) { TouchPermutes(lru.entries, k); }
      var found := lru.Get(k);
      if !found { return FileNotInCache; }
      if k !in dir.files { return IoError; }
      var bytes := dir.files[k].bytes;
      dir.files := dir.files[k := File(bytes, now)];
      reply := Opened(bytes);
    }

    /** `size()`: the running measure is the sum of the indexed sizes, and at
        most the capacity once the cache is consistent. */
    method Size() returns (size: nat)
      requires Valid()
      ensures size == Total(lru.entries)
      ensures Agree(Value()) ==> size <= lru.capacity
    {
      size := lru.measure;
    }
  }
}
