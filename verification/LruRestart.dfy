/** File mtimes are the only persisted form of the recency order. Under a
    strictly increasing clock they persist it exactly. */
module LruRestart {
  import opened Recency
  import opened LruDisk
  import opened LruStartup

  /** Strictly increasing mtimes along the order. */
  ghost predicate Ascending(es: seq<Entry>, files: map<Key, File>) {
    es == [] ||
    (es[0].key in files && (forall e :: e in es[1..] ==> Older(es[0], e, files)) && Ascending(es[1..], files))
  }

  /** Index and disk agree, mtimes rise strictly along the recency order, and
      none is later than `t`. */
  ghost predicate Chronological(s: State, t: int) {
    && Agree(s)
    && Ascending(s.entries, s.files)
    && forall k :: k in s.files ==> s.files[k].mtime <= t
  }

  function OpTime(op: Op): int {
    match op
    case InsertOp(_, file) => file.mtime
    case GetOp(_, now) => now
  }

  /** Every operation stamps its file with a time later than all before it: the
      case of `insert_bytes` and `get`. */
  predicate Clocked(ops: seq<Op>, t: int) {
    ops != [] ==> OpTime(ops[0]) > t && Clocked(ops[1..], OpTime(ops[0]))
  }

  function LastTime(ops: seq<Op>, t: int): int {
    if ops == [] then t else LastTime(ops[1..], OpTime(ops[0]))
  }

  lemma {:induction false} AscendingSuffix(es: seq<Entry>, files: map<Key, File>, n: nat)
    requires Ascending(es, files) && n <= |es|
    ensures Ascending(es[n..], files)
  {
    if n > 0 {
      AscendingSuffix(es[1..], files, n - 1);
      assert es[1..][n - 1..] == es[n..];
    }
  }

  lemma {:induction false} AscendingWithout(es: seq<Entry>, files: map<Key, File>, k: Key)
    requires Ascending(es, files)
    ensures Ascending(Without(es, k), files)
  {
    if es != [] {
      var out := Without(es[1..], k);
      AscendingWithout(es[1..], files, k);
      WithoutKeys(es[1..], k);
      if es[0].key != k {
        assert ([es[0]] + out)[1..] == out;
      } else {
        assert Without(es, k) == out;
      }
    }
  }

  lemma {:induction false} AscendingStorable(es: seq<Entry>, files: map<Key, File>, capacity: nat)
    requires Ascending(es, files)
    ensures Ascending(Storable(es, capacity), files)
  {
    if es != [] {
      var out := Storable(es[1..], capacity);
      AscendingStorable(es[1..], files, capacity);
      StorableIsPart(es[1..], capacity);
      if es[0].size <= capacity {
        assert ([es[0]] + out)[1..] == out;
      } else {
        assert Storable(es, capacity) == out;
      }
    }
  }

  /** Only the files of the order itself matter. */
  lemma {:induction false} AscendingSameFiles(es: seq<Entry>, files: map<Key, File>, other: map<Key, File>)
    requires Ascending(es, files)
    requires forall e :: e in es ==> e.key in files && e.key in other && other[e.key].mtime == files[e.key].mtime
    ensures Ascending(es, other)
  {
    if es != [] { AscendingSameFiles(es[1..], files, other); }
  }

  lemma {:induction false} AscendingAppend(es: seq<Entry>, files: map<Key, File>, e: Entry)
    requires Ascending(es, files) && e.key in files
    requires forall x :: x in es ==> Older(x, e, files)
    ensures Ascending(es + [e], files)
  {
    if es == [] {
      assert [e][1..] == [];
    } else {
      assert (es + [e])[1..] == es[1..] + [e];
      AscendingAppend(es[1..], files, e);
    }
  }

  /** An entry that becomes the youngest, with the latest mtime, keeps the
      order chronological. */
  lemma {:induction false} RestampedOrder(es: seq<Entry>, before: map<Key, File>, files: map<Key, File>, e: Entry,
                                          t: int)
    requires Ascending(es, before)
    requires e.key in files && files[e.key].mtime > t
    requires forall x :: x in Without(es, e.key) ==>
               && x.key in before && x.key in files
               && files[x.key].mtime == before[x.key].mtime && before[x.key].mtime <= t
    ensures Ascending(Without(es, e.key) + [e], files)
  {
    AscendingWithout(es, before, e.key);
    AscendingSameFiles(Without(es, e.key), before, files);
    AscendingAppend(Without(es, e.key), files, e);
  }

  lemma {:induction false} InsertIsChronological(s: State, k: Key, file: File, t: int)
    requires Chronological(s, t) && file.mtime > t && Harmless(s, InsertOp(k, file))
    ensures Chronological(InsertBy(s, k, file).0, file.mtime)
  {
    if |file.bytes| <= s.capacity {
      InsertAgreement(s, k, file);
      OnDiskWhenAgree(s);
      InsertOutcome(s, k, file);
      var n := Evicted(s, |file.bytes|);
      AscendingSuffix(s.entries, s.files, n);
      var u := InsertBy(s, k, file).0;
      var kept := s.entries[n..];
      InsertedKeys(kept, Entry(k, |file.bytes|));
      WithoutKeys(kept, k);
      forall x | x in Without(kept, k)
        ensures x.key in s.files && x.key in u.files && u.files[x.key] == s.files[x.key]
      {
        KeyOf(Without(kept, k), x);
        assert x in s.entries;
        assert Recorded(x, s.files);
      }
      RestampedOrder(kept, s.files, u.files, Entry(k, |file.bytes|), t);
    }
  }

  lemma {:induction false} GetIsChronological(s: State, k: Key, now: int, t: int)
    requires Chronological(s, t) && now > t
    ensures Chronological(Get(s, k, now).0, now)
  {
    GetAgreement(s, k, now);
    if k in Keys(s.entries) {
      var e := From(s.entries, k)[0];
      var u := Get(s, k, now).0;
      WithoutKeys(s.entries, k);
      forall x | x in Without(s.entries, k)
        ensures x.key in s.files && x.key in u.files && u.files[x.key] == s.files[x.key]
      {
        KeyOf(Without(s.entries, k), x);
        assert Recorded(x, s.files);
      }
      RestampedOrder(s.entries, s.files, u.files, e, t);
    }
  }

  lemma {:induction false} RunIsChronological(s: State, ops: seq<Op>, t: int)
    requires Chronological(s, t) && Clocked(ops, t) && HarmlessThroughout(s, ops)
    ensures Chronological(Run(s, ops), LastTime(ops, t))
    ensures Run(s, ops).capacity == s.capacity
    decreases |ops|
  {
    if ops != [] {
      match ops[0] {
        case InsertOp(k, file) => InsertIsChronological(s, k, file, t);
        case GetOp(k, now) => GetIsChronological(s, k, now, t);
      }
      assert Apply(s, ops[0]).0.capacity == s.capacity by { CapacityFixed(s, ops[0]); }
      RunIsChronological(Apply(s, ops[0]).0, ops[1..], OpTime(ops[0]));
    }
  }

  lemma {:induction false} CapacityFixed(s: State, op: Op)
    ensures Apply(s, op).0.capacity == s.capacity
  {
    if op.InsertOp? && |op.file.bytes| <= s.capacity {
      EvictCapacity(s.(files := s.files[op.key := op.file]), |op.file.bytes|);
    }
  }

  lemma {:induction false} EvictCapacity(s: State, need: nat)
    ensures Evict(s, need).0.capacity == s.capacity
    decreases |s.entries|
  {
    if Total(s.entries) + need > s.capacity && s.entries != [] && s.entries[0].key in s.files {
      EvictCapacity(s.(entries := s.entries[1..], files := s.files - {s.entries[0].key}), need);
    }
  }

  /** A directory with strictly ordered files has one listing. */
  lemma {:induction false} ListingUnique(a: seq<Entry>, b: seq<Entry>, files: map<Key, File>)
    requires Ascending(a, files) && Distinct(a) && Distinct(b) && Keys(a) == Keys(b)
    requires forall e :: e in a ==> Recorded(e, files)
    requires forall e :: e in b ==> Recorded(e, files)
    requires InMtimeOrder(b, files)
    ensures a == b
  {
    if a == [] {
      if b != [] { KeyAt(b, 0); }
    } else {
      KeyAt(a, 0);
      var j := IndexOf(b, a[0].key);
      assert Recorded(a[0], files) && Recorded(b[j], files);
      KeyAt(b, 0);
      var i := IndexOf(a, b[0].key);
      assert Recorded(a[i], files) && Recorded(b[0], files);
      assert i == 0;
      assert a[0] == b[0];
      TailKeys(a);
      TailKeys(b);
      forall p, q | 0 <= p < q < |b[1..]| ensures !Older(b[1..][q], b[1..][p], files) {
        assert !Older(b[q + 1], b[p + 1], files);
      }
      ListingUnique(a[1..], b[1..], files);
    }
  }

  lemma {:induction false} TailKeys(es: seq<Entry>)
    requires es != [] && Distinct(es)
    ensures Keys(es[1..]) == Keys(es) - {es[0].key}
  {
    if es[0].key in Keys(es[1..]) {
      var i := IndexOf(es[1..], es[0].key);
      assert false;
    }
  }

  /** Rebuilding on the directory of a chronological state gives the state
      back: same keys, sizes and order, and no file removed. */
  lemma {:induction false} RebuildIsIdentity(s: State, t: int, listing: seq<Entry>)
    requires Chronological(s, t) && IsListing(s.files, listing)
    ensures Startup(s.capacity, s.files, listing) == s
  {
    ListingUnique(s.entries, listing, s.files);
    StartupOptimal(s.capacity, s.files, listing);
    AllStorable(s.entries, s.capacity);
    AllFit(Startup(s.capacity, s.files, listing).entries, listing, s.capacity);
    assert Restrict(s.files, s.files.Keys) == s.files;
  }

  lemma {:induction false} AllFit(kept: seq<Entry>, es: seq<Entry>, capacity: nat)
    requires LongestFit(kept, es, capacity) && Total(es) <= capacity
    ensures kept == es
  {
    assert es[0..] == es;
    assert |kept| == |es|;
  }

  lemma {:induction false} AllStorable(es: seq<Entry>, capacity: nat)
    requires Total(es) <= capacity
    ensures Storable(es, capacity) == es
  {
    if es != [] { AllStorable(es[1..], capacity); }
  }

  ghost predicate DistinctMtimes(files: map<Key, File>) {
    forall a, b :: a in files && b in files && a != b ==> files[a].mtime != files[b].mtime
  }

  lemma {:induction false} FirstIsOlder(es: seq<Entry>, files: map<Key, File>, j: nat)
    requires Distinct(es) && DistinctMtimes(files) && InMtimeOrder(es, files) && 0 < j < |es|
    requires Recorded(es[0], files) && Recorded(es[j], files)
    ensures Older(es[0], es[j], files)
  {
    assert !Older(es[j], es[0], files);
    assert es[0].key != es[j].key;
  }

  lemma {:induction false} ListingAscends(es: seq<Entry>, files: map<Key, File>)
    requires Distinct(es) && DistinctMtimes(files)
    requires forall e :: e in es ==> Recorded(e, files)
    requires InMtimeOrder(es, files)
    ensures Ascending(es, files)
  {
    if es != [] {
      var later := es[1..];
      forall e | e in later ensures Older(es[0], e, files) {
        var j :| 1 <= j < |es| && es[j] == e;
        FirstIsOlder(es, files, j);
      }
      forall p, q | 0 <= p < q < |later| ensures !Older(later[q], later[p], files) {
        assert !Older(es[q + 1], es[p + 1], files);
      }
      ListingAscends(later, files);
      assert Recorded(es[0], files);
    }
  }

  lemma {:induction false} StartupIsChronological(capacity: nat, files: map<Key, File>, listing: seq<Entry>, t: int)
    requires IsListing(files, listing) && DistinctMtimes(files)
    requires forall k :: k in files ==> files[k].mtime <= t
    ensures Chronological(Startup(capacity, files, listing), t)
  {
    var s := Startup(capacity, files, listing);
    StartupOptimal(capacity, files, listing);
    KeptAscends(listing, files, capacity, s.entries);
    forall e | e in s.entries ensures e.key in s.files && s.files[e.key] == files[e.key] {
      KeyOf(s.entries, e);
    }
    AscendingSameFiles(s.entries, files, s.files);
  }

  lemma {:induction false} KeptAscends(listing: seq<Entry>, files: map<Key, File>, capacity: nat, kept: seq<Entry>)
    requires IsListing(files, listing) && DistinctMtimes(files)
    requires LongestFit(kept, Storable(listing, capacity), capacity)
    ensures Ascending(kept, files)
    ensures forall e :: e in kept ==> e.key in files
  {
    ListingAscends(listing, files);
    AscendingStorable(listing, files, capacity);
    var all := Storable(listing, capacity);
    AscendingSuffix(all, files, |all| - |kept|);
    KeptRecorded(listing, files, capacity, kept);
  }

  lemma {:induction false} KeptRecorded(listing: seq<Entry>, files: map<Key, File>, capacity: nat, kept: seq<Entry>)
    requires IsListing(files, listing) && LongestFit(kept, Storable(listing, capacity), capacity)
    ensures forall e :: e in kept ==> e.key in files
  {
    StorableIsPart(listing, capacity);
    forall e | e in kept ensures e.key in files {
      assert e in listing;
      assert Recorded(e, files);
    }
  }

  /** Restart equivalence. Start on any directory whose files have distinct
      mtimes, run any operations that stamp increasing times, with every
      re-insert harmless; then a new cache built on what is left on disk is the
      cache that was running. */
  lemma {:induction false} RestartEquivalence(capacity: nat, files: map<Key, File>, listing: seq<Entry>, t: int,
                           ops: seq<Op>, relisting: seq<Entry>)
    requires IsListing(files, listing) && DistinctMtimes(files)
    requires forall k :: k in files ==> files[k].mtime <= t
    requires Clocked(ops, t) && HarmlessThroughout(Startup(capacity, files, listing), ops)
    requires IsListing(Run(Startup(capacity, files, listing), ops).files, relisting)
    ensures
      var running := Run(Startup(capacity, files, listing), ops);
      Startup(capacity, running.files, relisting) == running
  {
    var s := Startup(capacity, files, listing);
    StartupIsChronological(capacity, files, listing, t);
    ScanKeepsRecent(State(capacity, [], files), [], listing);
    RunIsChronological(s, ops, t);
    RebuildIsIdentity(Run(s, ops), LastTime(ops, t), relisting);
  }

  lemma {:induction false} AscendingInOrder(es: seq<Entry>, files: map<Key, File>)
    requires Ascending(es, files)
    ensures InMtimeOrder(es, files)
    ensures forall e :: e in es ==> e.key in files && !Older(es[|es| - 1], e, files)
  {
    if es != [] {
      AscendingInOrder(es[1..], files);
      forall i, j | 0 <= i < j < |es| ensures !Older(es[j], es[i], files) {
        if i > 0 { assert es[1..][i - 1] == es[i] && es[1..][j - 1] == es[j]; }
      }
    }
  }

  lemma {:induction false} LatestLast(front: seq<Entry>, last: Entry, files: map<Key, File>)
    requires InMtimeOrder(front, files) && Distinct(front)
    requires forall y :: y in front ==> y.key != last.key && !Older(last, y, files)
    ensures InMtimeOrder(front + [last], files) && Distinct(front + [last])
    ensures Keys(front + [last]) == Keys(front) + {last.key}
  {
    KeysConcat(front, [last]);
    assert Keys([last]) == {last.key};
  }

  /** A listing that does not end in `e`, when the latest of the others is not
      older. */
  lemma {:induction false} AnotherListing(before: seq<Entry>, last: Entry, e: Entry, files: map<Key, File>)
    requires InMtimeOrder(before, files) && Distinct(before)
    requires forall y :: y in before ==> Recorded(y, files) && y.key != last.key && !Older(last, y, files)
    requires Recorded(e, files) && Recorded(last, files) && !Older(last, e, files)
    requires e.key !in Keys(before) && e.key != last.key && Keys(before) + {last.key, e.key} == files.Keys
    ensures IsListing(files, PlaceByMtime(before, e, files) + [last])
  {
    var front := PlaceByMtime(before, e, files);
    PlacedInOrder(before, e, files);
    PlacedSomewhere(before, e, files);
    forall y | y in front ensures y.key != last.key && !Older(last, y, files) && Recorded(y, files) {
      assert y in before || y == e;
    }
    LatestLast(front, last, files);
  }

  /** A scan keeps the last file of the listing last. */
  lemma {:induction false} LastStays(capacity: nat, files: map<Key, File>, front: seq<Entry>, last: Entry)
    requires IsListing(files, front + [last]) && last.size <= capacity
    ensures
      var es := Startup(capacity, files, front + [last]).entries;
      es == [] || es[|es| - 1] == last
  {
    StartupOptimal(capacity, files, front + [last]);
    StorableAppend(front, last, capacity);
  }

  /** A file other than that of `k` that an insert of `size` bytes keeps. */
  predicate KeptBeside(s: State, k: Key, size: nat, x: Key)
    requires size <= s.capacity
  {
    x in s.files && x != k && x !in Keys(s.entries[..Evicted(s, size)])
  }

  /** What `insert_file` makes of a chronological state. */
  lemma {:induction false} InsertedLast(s: State, k: Key, file: File, t: int) returns (older: seq<Entry>)
    requires Chronological(s, t) && |file.bytes| <= s.capacity && KeepsOwnFile(s, k, |file.bytes|)
    ensures
      var u, e := InsertBy(s, k, file).0, Entry(k, |file.bytes|);
      && Agree(u) && u.capacity == s.capacity && u.entries == older + [e]
      && k in u.files && u.files[k] == file
      && Ascending(older, u.files) && k !in Keys(older) && Distinct(older)
      && forall x :: KeptBeside(s, k, |file.bytes|, x) <==> x in Keys(older)
    ensures
      var u := InsertBy(s, k, file).0;
      forall x :: x in Keys(older) ==> x in s.files && x in u.files && u.files[x] == s.files[x]
  {
    var u, e := InsertBy(s, k, file).0, Entry(k, |file.bytes|);
    InsertAgreement(s, k, file);
    OnDiskWhenAgree(s);
    InsertOutcome(s, k, file);
    var n := Evicted(s, |file.bytes|);
    older := Without(s.entries[n..], k);
    AscendingSuffix(s.entries, s.files, n);
    AscendingWithout(s.entries[n..], s.files, k);
    WithoutKeys(s.entries[n..], k);
    WithoutDistinct(s.entries[n..], k);
    SplitKeys(s.entries, n);
    InsertedKeys(s.entries[n..], e);
    assert k in Keys(u.entries);
    forall x | x in older ensures x.key in s.files && x.key in u.files && u.files[x.key] == s.files[x.key] {
      KeyOf(older, x);
    }
    AscendingSameFiles(older, s.files, u.files);
  }

  /** `insert_file` renames, so the new file keeps an mtime from before. Every
      restart then finds the recency order if and only if that mtime is later
      than those of the files that the insert keeps. */
  lemma {:induction false} InsertFileRestart(s: State, k: Key, file: File, t: int)
    requires Chronological(s, t) && |file.bytes| <= s.capacity && KeepsOwnFile(s, k, |file.bytes|)
    ensures
      var u := InsertBy(s, k, file).0;
      (forall listing :: IsListing(u.files, listing) ==> Startup(u.capacity, u.files, listing) == u)
      <==> (forall x :: KeptBeside(s, k, |file.bytes|, x) ==> s.files[x].mtime < file.mtime)
  {
    var u, e := InsertBy(s, k, file).0, Entry(k, |file.bytes|);
    var older := InsertedLast(s, k, file, t);
    if forall x :: KeptBeside(s, k, |file.bytes|, x) ==> s.files[x].mtime < file.mtime {
      forall x | x in older ensures Older(x, e, u.files) { KeyOf(older, x); }
      AscendingAppend(older, u.files, e);
      var late := LatestMtime(u.files);
      forall listing | IsListing(u.files, listing) ensures Startup(u.capacity, u.files, listing) == u {
        RebuildIsIdentity(u, late, listing);
      }
    } else {
      var x :| KeptBeside(s, k, |file.bytes|, x) && s.files[x].mtime >= file.mtime;
      RenamedTooOld(u, older, e, x);
    }
  }

  lemma {:induction false} RenamedTooOld(u: State, older: seq<Entry>, e: Entry, x: Key)
    requires Agree(u) && u.entries == older + [e] && e.key in u.files && Ascending(older, u.files)
    requires Distinct(older) && e.key !in Keys(older)
    requires x in Keys(older) && x in u.files && u.files[x].mtime >= u.files[e.key].mtime
    ensures exists listing :: IsListing(u.files, listing) && Startup(u.capacity, u.files, listing) != u
  {
    var before, last := older[..|older| - 1], older[|older| - 1];
    LatestNotOlder(older, e, u.files, x);
    SplitLatest(u, older, e, before, last);
    AnotherListing(before, last, e, u.files);
    LastStays(u.capacity, u.files, PlaceByMtime(before, e, u.files), last);
  }

  lemma {:induction false} SplitLatest(u: State, older: seq<Entry>, e: Entry, before: seq<Entry>, last: Entry)
    requires Agree(u) && u.entries == older + [e] && Ascending(older, u.files) && Distinct(older)
    requires older == before + [last]
    ensures InMtimeOrder(before, u.files) && Distinct(before) && last.size <= u.capacity
    ensures forall y :: y in before ==> Recorded(y, u.files) && y.key != last.key && !Older(last, y, u.files)
    ensures Recorded(e, u.files) && Recorded(last, u.files)
    ensures Keys(before) + {last.key, e.key} == u.files.Keys && Keys(before) <= Keys(older)
  {
    KeysConcat(older, [e]);
    KeysConcat(before, [last]);
    assert Keys([e]) == {e.key} && Keys([last]) == {last.key};
    AscendingInOrder(older, u.files);
    assert e in u.entries && last in u.entries;
    SizeWithin(u.entries, last);
    forall y | y in before ensures Recorded(y, u.files) && y.key != last.key && !Older(last, y, u.files) {
      var i :| 0 <= i < |before| && before[i] == y;
      assert older[i] == y && older[|before|] == last && u.entries[i] == y;
    }
    forall i, j | 0 <= i < j < |before|
      ensures !Older(before[j], before[i], u.files) && before[i].key != before[j].key
    {
      assert older[i] == before[i] && older[j] == before[j];
    }
  }

  lemma {:induction false} LatestNotOlder(older: seq<Entry>, e: Entry, files: map<Key, File>, x: Key)
    requires Ascending(older, files) && x in Keys(older) && x in files && e.key in files
    requires e.key !in Keys(older) && files[x].mtime >= files[e.key].mtime
    ensures !Older(older[|older| - 1], e, files) && older[|older| - 1].key != e.key
  {
    var i := IndexOf(older, x);
    AscendingInOrder(older, files);
    KeyAt(older, |older| - 1);
    assert older[i] in older && older[|older| - 1] in older;
  }

  lemma {:induction false} SizeWithin(es: seq<Entry>, e: Entry)
    requires e in es
    ensures e.size <= Total(es)
  {
    if e != es[0] { SizeWithin(es[1..], e); }
  }

  const NewFile := File([0], 2)
  const RenamedFile := File([1], 1)

  lemma {:induction false} RoomForBoth(capacity: nat, j: Key, first: File, k: Key, second: File)
    requires j != k && |first.bytes| + |second.bytes| <= capacity
    ensures Run(State(capacity, [], map[]), [InsertOp(j, first), InsertOp(k, second)])
         == State(capacity, [Entry(j, |first.bytes|), Entry(k, |second.bytes|)], map[j := first, k := second])
  {
    var s0, a, b := State(capacity, [], map[]), Entry(j, |first.bytes|), Entry(k, |second.bytes|);
    var ops := [InsertOp(j, first), InsertOp(k, second)];
    InsertOutcome(s0, j, first);
    var s1 := State(capacity, [a], map[j := first]);
    assert InsertBy(s0, j, first).0 == s1;
    InsertOutcome(s1, k, second);
    assert [a][0..] == [a] && [a][1..] == [];
    assert Evicted(s1, b.size) == 0;
    WithoutAbsent([a], k);
    assert InsertBy(s1, k, second).0.entries == [a] + [b];
    assert ops[1..] == [InsertOp(k, second)] && ops[1..][1..] == [];
    assert Run(s1, ops[1..]) == InsertBy(s1, k, second).0;
  }

  /** For example, a file renamed into a cache with a newer one: a restart finds
      it first in line for eviction. */
  lemma {:induction false} RenamedFileComesBackOldest()
    ensures
      var running := Run(State(10, [], map[]), [InsertOp("new", NewFile), InsertOp("renamed", RenamedFile)]);
      var listing := [Entry("renamed", 1), Entry("new", 1)];
      && running.entries == [Entry("new", 1), Entry("renamed", 1)]
      && IsListing(running.files, listing)
      && Startup(10, running.files, listing).entries == listing
  {
    RoomForBoth(10, "new", NewFile, "renamed", RenamedFile);
    var files := map["new" := NewFile, "renamed" := RenamedFile];
    var listing := [Entry("renamed", 1), Entry("new", 1)];
    assert |listing[0].key| != |listing[1].key|;
    assert listing[1..] == [Entry("new", 1)] && listing[1..][1..] == [];
    StartupOptimal(10, files, listing);
    AllStorable(listing, 10);
    AllFit(Startup(10, files, listing).entries, listing, 10);
  }

  lemma {:induction false} LatestMtime(files: map<Key, File>) returns (t: int)
    ensures forall k :: k in files ==> files[k].mtime <= t
    decreases |files|
  {
    if k :| k in files {
      var rest := LatestMtime(files - {k});
      t := if files[k].mtime > rest then files[k].mtime else rest;
      forall x | x in files ensures files[x].mtime <= t {
        if x != k { assert x in files - {k}; }
      }
    } else {
      t := 0;
    }
  }
}
