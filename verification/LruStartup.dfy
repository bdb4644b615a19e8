/** The start-up scan of the disk cache, and restarting on the directory that
    an earlier run left behind. */
module LruStartup {
  import opened Recency
  import opened LruDisk

  /** What `get_all_files` can return for a directory: each file once, with its
      size, oldest modification first. The order of equal mtimes is open. */
  ghost predicate IsListing(files: map<Key, File>, es: seq<Entry>) {
    && Distinct(es)
    && Keys(es) == files.Keys
    && (forall e :: e in es ==> Recorded(e, files))
    && InMtimeOrder(es, files)
  }

  predicate Older(a: Entry, b: Entry, files: map<Key, File>) {
    a.key in files && b.key in files && files[a.key].mtime < files[b.key].mtime
  }

  /** Files that fit are added, files that never could are removed. */
  function ScanOne(s: State, e: Entry): State {
    if e.size > s.capacity then s.(files := s.files - {e.key}) else AddFile(s, e.key, e.size).0
  }

  /** The `for` loop of `init`. */
  function InitScan(s: State, listing: seq<Entry>): State
    decreases |listing|
  {
    if listing == [] then s else InitScan(ScanOne(s, listing[0]), listing[1..])
  }

  /** `LruDiskCache::new` on a directory holding `files`. */
  function Startup(capacity: nat, files: map<Key, File>, listing: seq<Entry>): State {
    InitScan(State(capacity, [], files), listing)
  }

  ghost predicate InMtimeOrder(es: seq<Entry>, files: map<Key, File>) {
    forall i, j :: 0 <= i < j < |es| ==> !Older(es[j], es[i], files)
  }

  /** One step of sorting by mtime: after every entry that is not newer. */
  function PlaceByMtime(es: seq<Entry>, e: Entry, files: map<Key, File>): seq<Entry> {
    if es == [] || Older(e, es[0], files) then [e] + es
    else [es[0]] + PlaceByMtime(es[1..], e, files)
  }

  lemma {:induction false} PlacedSomewhere(es: seq<Entry>, e: Entry, files: map<Key, File>)
    ensures Keys(PlaceByMtime(es, e, files)) == Keys(es) + {e.key}
    ensures forall x :: x in PlaceByMtime(es, e, files) <==> x in es || x == e
    ensures Distinct(es) && e.key !in Keys(es) ==> Distinct(PlaceByMtime(es, e, files))
  {
    if es == [] || Older(e, es[0], files) {
      assert ([e] + es)[1..] == es;
      if Distinct(es) && e.key !in Keys(es) {
        forall i | 0 <= i < |es| ensures es[i].key != e.key { KeyAt(es, i); }
      }
    } else {
      var rest := PlaceByMtime(es[1..], e, files);
      PlacedSomewhere(es[1..], e, files);
      assert ([es[0]] + rest)[1..] == rest;
      if Distinct(es) && e.key !in Keys(es) {
        forall i | 0 <= i < |rest| ensures rest[i].key != es[0].key {
          assert rest[i] in es[1..] || rest[i] == e;
        }
      }
    }
  }

  lemma {:induction false} PlacedInOrder(es: seq<Entry>, e: Entry, files: map<Key, File>)
    requires InMtimeOrder(es, files) && Recorded(e, files)
    requires forall x :: x in es ==> Recorded(x, files)
    ensures InMtimeOrder(PlaceByMtime(es, e, files), files)
  {
    var out := PlaceByMtime(es, e, files);
    if es == [] {
    } else if Older(e, es[0], files) {
      forall j | 0 < j < |out| ensures !Older(out[j], e, files) {
        assert Recorded(es[0], files) && Recorded(es[j - 1], files);
        assert j > 1 ==> !Older(es[j - 1], es[0], files);
      }
    } else {
      var rest := PlaceByMtime(es[1..], e, files);
      forall i, j | 0 <= i < j < |es[1..]| ensures !Older(es[1..][j], es[1..][i], files) {
        assert !Older(es[j + 1], es[i + 1], files);
      }
      PlacedInOrder(es[1..], e, files);
      PlacedSomewhere(es[1..], e, files);
      forall j | 0 <= j < |rest| ensures !Older(rest[j], es[0], files) {
        if rest[j] != e {
          assert rest[j] in es[1..];
          var p :| 0 <= p < |es[1..]| && es[1..][p] == rest[j];
          assert es[p + 1] == rest[j];
        }
      }
    }
  }

  function Storable(es: seq<Entry>, capacity: nat): seq<Entry> {
    if es == [] then []
    else (if es[0].size <= capacity then [es[0]] else []) + Storable(es[1..], capacity)
  }

  function Restrict(files: map<Key, File>, keys: set<Key>): map<Key, File> {
    map k | k in files && k in keys :: files[k]
  }

  lemma {:induction false} StorableAppend(es: seq<Entry>, e: Entry, capacity: nat)
    ensures Storable(es + [e], capacity) == Storable(es, capacity) + if e.size <= capacity then [e] else []
  {
    if es == [] {
      assert [e][1..] == [];
    } else {
      var all, first := es + [e], if es[0].size <= capacity then [es[0]] else [];
      assert all[1..] == es[1..] + [e];
      StorableAppend(es[1..], e, capacity);
      assert Storable(all, capacity) == first + Storable(all[1..], capacity);
    }
  }

  /** What holds in the middle of a scan: `s.entries` is the longest recent run
      of the files seen so far that fits, and nothing is on disk but that run
      and the files still to come. */
  ghost predicate Scanning(s: State, done: seq<Entry>, rest: set<Key>) {
    && s.entries == MakeRoom(Storable(done, s.capacity), s.capacity, 0)
    && Distinct(s.entries)
    && Keys(s.entries) !! rest
    && s.files.Keys == Keys(s.entries) + rest
  }

  lemma {:induction false} ScanAdds(s: State, e: Entry, rest: set<Key>)
    requires Distinct(s.entries) && e.key !in Keys(s.entries) && e.key !in rest
    requires s.files.Keys == Keys(s.entries) + ({e.key} + rest) && Keys(s.entries) !! rest
    requires e.size <= s.capacity
    ensures
      var t := AddFile(s, e.key, e.size).0;
      && AddFile(s, e.key, e.size).1 == Done
      && t.capacity == s.capacity
      && t.entries == MakeRoom(s.entries + [e], s.capacity, 0)
      && Distinct(t.entries) && Keys(t.entries) <= Keys(s.entries) + {e.key}
      && t.files == Restrict(s.files, Keys(t.entries) + rest)
  {
    forall i | 0 <= i < |s.entries| ensures s.entries[i].key in s.files { KeyAt(s.entries, i); }
    EvictRemovesOldest(s, e.size);
    MakeRoomIsMinimal(s.entries, s.capacity, e.size);
    var kept := MakeRoom(s.entries, s.capacity, e.size);
    SplitKeys(s.entries, |s.entries| - |kept|);
    WithoutAbsent(kept, e.key);
    MakeRoomThenAdd(s.entries, s.capacity, e);
    TotalConcat(kept, [e]);
    InsertedKeys(kept, e);
    var t := AddFile(s, e.key, e.size).0;
    assert t.files.Keys == Keys(t.entries) + rest;
  }

  lemma {:induction false} ScanStep(s: State, done: seq<Entry>, e: Entry, rest: set<Key>)
    requires e.key !in rest
    requires Scanning(s, done, {e.key} + rest)
    ensures ScanOne(s, e).capacity == s.capacity
    ensures Scanning(ScanOne(s, e), done + [e], rest)
    ensures ScanOne(s, e).files == Restrict(s.files, ScanOne(s, e).files.Keys)
    ensures e.size <= s.capacity ==> AddFile(s, e.key, e.size).1 == Done
  {
    StorableAppend(done, e, s.capacity);
    var all := Storable(done, s.capacity);
    if e.size > s.capacity {
      assert Storable(done + [e], s.capacity) == all;
    } else {
      ScanAdds(s, e, rest);
      FitAfterAdd(all, s.capacity, e);
    }
  }

  lemma {:induction false} ScanKeepsRecent(s: State, done: seq<Entry>, rest: seq<Entry>)
    requires Distinct(rest) && Scanning(s, done, Keys(rest))
    ensures InitScan(s, rest).capacity == s.capacity
    ensures Scanning(InitScan(s, rest), done + rest, {})
    ensures InitScan(s, rest).files == Restrict(s.files, InitScan(s, rest).files.Keys)
    decreases |rest|
  {
    if rest == [] {
      assert done + rest == done;
    } else {
      var e := rest[0];
      if e.key in Keys(rest[1..]) {
        var i := IndexOf(rest[1..], e.key);
        assert false;
      }
      ScanStep(s, done, e, Keys(rest[1..]));
      ScanKeepsRecent(ScanOne(s, e), done + [e], rest[1..]);
      assert done + rest == done + [e] + rest[1..];
    }
  }

  /** The scan is optimal: files above the capacity go, and of the others
      exactly the longest run of most recently modified ones that fits is
      kept, in mtime order, on disk and in the index. */
  lemma {:induction false} StartupOptimal(capacity: nat, files: map<Key, File>, listing: seq<Entry>)
    requires IsListing(files, listing)
    ensures
      var s := Startup(capacity, files, listing);
      && s.capacity == capacity
      && LongestFit(s.entries, Storable(listing, capacity), capacity)
      && s.files == Restrict(files, Keys(s.entries))
      && Agree(s)
  {
    ScanKeepsRecent(State(capacity, [], files), [], listing);
    assert [] + listing == listing;
    MakeRoomIsMinimal(Storable(listing, capacity), capacity, 0);
    var s := Startup(capacity, files, listing);
    forall e | e in s.entries ensures Recorded(e, s.files) {
      KeyOf(s.entries, e);
      StorableIsPart(listing, capacity);
      assert e in listing;
      assert Recorded(e, files);
    }
  }

  lemma {:induction false} StorableIsPart(es: seq<Entry>, capacity: nat)
    ensures forall e :: e in Storable(es, capacity) <==> e in es && e.size <= capacity
  {
    if es != [] { StorableIsPart(es[1..], capacity); }
  }
}
