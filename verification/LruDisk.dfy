/** The disk cache as a value: what each operation of `LruDiskCache` does to
    the recency index and to the directory of files behind it. The class in
    LruDiskCache.dfy is proved to compute these functions. */
module LruDisk {
  import opened Octets
  import opened Recency

  datatype File = File(bytes: Bytes, mtime: int)

  /** What a call answers. `Panicked` is the process dying inside the call. */
  datatype Reply =
    | Done
    | Opened(bytes: Bytes)
    | FileTooLarge
    | FileNotInCache
    | IoError
    | Panicked

  datatype State = State(capacity: nat, entries: seq<Entry>, files: map<Key, File>)

  /** `LruCache::insert` of the crate: the new entry becomes the youngest, and
      the oldest entries go while the total is over the capacity. */
  function LruInsert(es: seq<Entry>, capacity: nat, e: Entry): seq<Entry> {
    MakeRoom(Without(es, e.key) + [e], capacity, 0)
  }

  /** `LruCache::get`: a found entry becomes the youngest. */
  function LruTouch(es: seq<Entry>, k: Key): seq<Entry> {
    if k in Keys(es) then Without(es, k) + [From(es, k)[0]] else es
  }

  /** The eviction loop of `add_file`. The flag is false when it panics, either
      on an empty index or on a file that is not there to remove. */
  function Evict(s: State, need: nat): (State, bool)
    decreases |s.entries|
  {
    if Total(s.entries) + need <= s.capacity then (s, true)
    else if s.entries == [] then (s, false)
    else
      var victim := s.entries[0].key;
      var popped := s.(entries := s.entries[1..]);
      if victim !in s.files then (popped, false)
      else Evict(popped.(files := s.files - {victim}), need)
  }

  function AddFile(s: State, k: Key, size: nat): (State, Reply) {
    if size > s.capacity then (s, FileTooLarge)
    else
      var (room, ok) := Evict(s, size);
      if ok then (room.(entries := LruInsert(room.entries, s.capacity, Entry(k, size))), Done)
      else (room, Panicked)
  }

  /** `insert_by`: the file is written first, then added to the index. With
      `file.mtime` the current time this is `insert_bytes`; with the mtime of
      an existing file it is `insert_file`, which renames. */
  function InsertBy(s: State, k: Key, file: File): (State, Reply) {
    if |file.bytes| > s.capacity then (s, FileTooLarge)
    else AddFile(s.(files := s.files[k := file]), k, |file.bytes|)
  }

  function Get(s: State, k: Key, now: int): (State, Reply) {
    if k !in Keys(s.entries) then (s, FileNotInCache)
    else
      var touched := s.(entries := LruTouch(s.entries, k));
      if k !in s.files then (touched, IoError)
      else
        var bytes := s.files[k].bytes;
        (touched.(files := s.files[k := File(bytes, now)]), Opened(bytes))
  }

  datatype Op =
    | InsertOp(key: Key, file: File)
    | GetOp(key: Key, now: int)

  function Apply(s: State, op: Op): (State, Reply) {
    match op
    case InsertOp(k, file) => InsertBy(s, k, file)
    case GetOp(k, now) => Get(s, k, now)
  }

  function Run(s: State, ops: seq<Op>): State
    decreases |ops|
  {
    if ops == [] then s else Run(Apply(s, ops[0]).0, ops[1..])
  }

  // ----- Index and disk agree -----

  ghost predicate OnDisk(s: State) {
    && Distinct(s.entries)
    && forall i :: 0 <= i < |s.entries| ==> s.entries[i].key in s.files
  }

  /** The indexed files are exactly the files on disk, with equal sizes, and
      fit in the capacity. */
  ghost predicate Agree(s: State) {
    && Distinct(s.entries)
    && Total(s.entries) <= s.capacity
    && s.files.Keys == Keys(s.entries)
    && forall e :: e in s.entries ==> Recorded(e, s.files)
  }

  predicate Recorded(e: Entry, files: map<Key, File>) {
    e.key in files && |files[e.key].bytes| == e.size
  }

  /** When an insert keeps agreement: evicting only entries older than `k`
      makes enough room. Always so for a key that is not indexed. */
  predicate KeepsOwnFile(s: State, k: Key, size: nat) {
    Total(From(s.entries, k)) + size <= s.capacity
  }

  lemma {:induction false} OldestFirst(es: seq<Entry>, d: nat, files: map<Key, File>)
    requires 1 <= d <= |es|
    ensures (files - {es[0].key}) - Keys(es[1..][..d - 1]) == files - Keys(es[..d])
  {
    assert es[1..][..d - 1] == es[..d][1..];
  }

  lemma {:induction false} EvictRemovesOldest(s: State, need: nat)
    requires OnDisk(s) && need <= s.capacity
    ensures
      var kept := MakeRoom(s.entries, s.capacity, need);
      |kept| <= |s.entries| &&
      Evict(s, need) == (State(s.capacity, kept, s.files - Keys(s.entries[..|s.entries| - |kept|])), true)
    decreases |s.entries|
  {
    MakeRoomIsMinimal(s.entries, s.capacity, need);
    var es := s.entries;
    if Total(es) + need <= s.capacity {
      assert s.files - Keys(es[..0]) == s.files;
    } else {
      var t := State(s.capacity, es[1..], s.files - {es[0].key});
      assert OnDisk(t);
      EvictRemovesOldest(t, need);
      OldestFirst(es, |es| - |MakeRoom(es[1..], s.capacity, need)|, s.files);
    }
  }

  /** How many of the oldest entries an insert of `size` bytes evicts. */
  function Evicted(s: State, size: nat): (n: nat)
    requires size <= s.capacity
    ensures n <= |s.entries|
    ensures Total(s.entries[n..]) + size <= s.capacity
    ensures forall i :: 0 <= i < n ==> Total(s.entries[i..]) + size > s.capacity
  {
    MakeRoomIsMinimal(s.entries, s.capacity, size);
    |s.entries| - |MakeRoom(s.entries, s.capacity, size)|
  }

  /** An insert into a cache whose indexed files exist always succeeds, and the
      crate's own `insert` has nothing left to evict. */
  lemma {:induction false} InsertOutcome(s: State, k: Key, file: File)
    requires OnDisk(s) && |file.bytes| <= s.capacity
    ensures
      var size := |file.bytes|;
      var n := Evicted(s, size);
      InsertBy(s, k, file) == (
        State(s.capacity,
              Without(s.entries[n..], k) + [Entry(k, size)],
              s.files[k := file] - Keys(s.entries[..n])),
        Done)
  {
    var size := |file.bytes|;
    var w := s.(files := s.files[k := file]);
    var kept := MakeRoom(s.entries, s.capacity, size);
    EvictRemovesOldest(w, size);
    MakeRoomIsMinimal(s.entries, s.capacity, size);
    RoomThenInsert(kept, s.capacity, Entry(k, size));
  }

  /** With room made, the crate's `insert` only replaces the entry. */
  lemma {:induction false} RoomThenInsert(kept: seq<Entry>, capacity: nat, e: Entry)
    requires Total(kept) + e.size <= capacity
    ensures LruInsert(kept, capacity, e) == Without(kept, e.key) + [e]
  {
    WithoutTotal(kept, e.key);
    TotalConcat(Without(kept, e.key), [e]);
    assert Total([e]) == e.size;
  }

  /** Splitting a duplicate-free order splits its keys. */
  lemma {:induction false} EvictPanics(s: State, need: nat)
    requires Distinct(s.entries) && need <= s.capacity
    ensures !Evict(s, need).1 <==> exists i :: 0 <= i < Evicted(s, need) && s.entries[i].key !in s.files
    decreases |s.entries|
  {
    if Total(s.entries) + need > s.capacity && s.entries[0].key in s.files {
      var t := State(s.capacity, s.entries[1..], s.files - {s.entries[0].key});
      EvictPanics(t, need);
      if i :| 0 <= i < Evicted(s, need) && s.entries[i].key !in s.files {
        assert t.entries[i - 1].key !in t.files;
      }
      if i :| 0 <= i < Evicted(t, need) && t.entries[i].key !in t.files {
        assert s.entries[i + 1].key !in s.files;
      }
    }
  }

  /** When a call panics, and with it every later one that waits for the lock:
      exactly when the file of some entry to evict is missing. */
  lemma {:induction false} InsertPanics(s: State, k: Key, file: File)
    requires Distinct(s.entries) && |file.bytes| <= s.capacity
    ensures InsertBy(s, k, file).1 == Panicked
       <==> exists i :: 0 <= i < Evicted(s, |file.bytes|) && s.entries[i].key != k && s.entries[i].key !in s.files
  {
    var written := s.(files := s.files[k := file]);
    EvictPanics(written, |file.bytes|);
    assert Evicted(written, |file.bytes|) == Evicted(s, |file.bytes|);
    assert forall i :: 0 <= i < |s.entries| ==>
        (written.entries[i].key !in written.files <==> s.entries[i].key != k && s.entries[i].key !in s.files);
  }

  /** For example, a key that fills the cache and is inserted again: its file is
      gone, a lookup fails, and the next insert that evicts it panics. */
  lemma {:induction false} ReinsertDeletesItsFile(full: Bytes)
    requires |full| == 10
    ensures
      var s := Run(State(10, [], map[]), [InsertOp("k", File(full, 1)), InsertOp("k", File([0], 2))]);
      && s.entries == [Entry("k", 1)] && s.files == map[]
      && Get(s, "k", 3).1 == IoError
      && InsertBy(s, "j", File(full, 3)).1 == Panicked
  {
    var first, second := InsertOp("k", File(full, 1)), InsertOp("k", File([0], 2));
    var s0, e, e' := State(10, [], map[]), Entry("k", 10), Entry("k", 1);
    assert [first, second][1..] == [second] && [second][1..] == [];
    assert [e][1..] == [] && [e'][1..] == [];
    InsertOutcome(s0, "k", File(full, 1));
    var s1 := Apply(s0, first).0;
    assert s1.entries == [e];
    InsertOutcome(s1, "k", File([0], 2));
    assert [e][0..] == [e];
    assert Evicted(s1, 1) == 1;
    var s2 := Apply(s1, second).0;
    assert s2.entries == [e'] && s2.files == map[];
    assert Run(s0, [first, second]) == Run(s1, [second]) == Run(s2, []);
    assert [e'][0..] == [e'];
    assert Evicted(s2, 10) == 1;
    InsertPanics(s2, "j", File(full, 3));
    assert s2.entries[0].key != "j" by { assert "k"[0] != "j"[0]; }
  }

  lemma {:induction false} SplitKeys(es: seq<Entry>, n: nat)
    requires n <= |es| && Distinct(es)
    ensures Keys(es) == Keys(es[..n]) + Keys(es[n..])
    ensures Keys(es[..n]) !! Keys(es[n..])
  {
    assert es == es[..n] + es[n..];
    KeysConcat(es[..n], es[n..]);
    if k :| k in Keys(es[..n]) && k in Keys(es[n..]) {
      var i := IndexOf(es[..n], k);
      var j := IndexOf(es[n..], k);
      assert false;
    }
  }

  lemma {:induction false} FromTotal(es: seq<Entry>, k: Key, n: nat)
    requires n <= |es| && Distinct(es)
    ensures k in Keys(es[..n]) ==> exists i :: 0 <= i < n && From(es, k) == es[i..]
    ensures k !in Keys(es[..n]) ==> Total(From(es, k)) <= Total(es[n..])
  {
    SplitKeys(es, n);
    if k in Keys(es[..n]) {
      var i := IndexOf(es[..n], k);
      FromIsSuffix(es, i);
    } else if k in Keys(es[n..]) {
      var j := IndexOf(es[n..], k);
      FromIsSuffix(es, n + j);
      assert es[n..] == es[n..n + j] + es[n + j..];
      TotalConcat(es[n..n + j], es[n + j..]);
    }
  }

  lemma {:induction false} InsertKeepsSizes(s: State, k: Key, file: File, n: nat)
    requires Agree(s) && n <= |s.entries|
    requires k !in Keys(s.entries[..n])
    requires Total(s.entries[n..]) + |file.bytes| <= s.capacity
    ensures Agree(State(s.capacity,
                        Without(s.entries[n..], k) + [Entry(k, |file.bytes|)],
                        s.files[k := file] - Keys(s.entries[..n])))
  {
    var es, w := s.entries, Without(s.entries[n..], k);
    var e := Entry(k, |file.bytes|);
    var files := s.files[k := file] - Keys(es[..n]);
    SplitKeys(es, n);
    InsertedKeys(es[n..], e);
    WithoutKeys(es[n..], k);
    WithoutTotal(es[n..], k);
    TotalConcat(w, [e]);
    assert files.Keys == Keys(w + [e]);
    forall x | x in w + [e] ensures Recorded(x, files) {
      if x in w {
        KeyOf(w, x);
        assert x in es[n..];
        assert Recorded(x, s.files);
      }
    }
  }

  /** The exact condition under which an insert keeps index and disk in
      agreement. `From` is empty for a key that is not indexed, so fresh keys
      always do; a re-insert that evicts its own old entry deletes the file it
      has just written. */
  lemma {:induction false} InsertAgreement(s: State, k: Key, file: File)
    requires Agree(s) && |file.bytes| <= s.capacity
    ensures InsertBy(s, k, file).1 == Done
    ensures Agree(InsertBy(s, k, file).0) <==> KeepsOwnFile(s, k, |file.bytes|)
  {
    var es, size := s.entries, |file.bytes|;
    OnDiskWhenAgree(s);
    InsertOutcome(s, k, file);
    var n := Evicted(s, size);
    FromTotal(es, k, n);
    if k in Keys(es[..n]) {
      InsertedKeys(es[n..], Entry(k, size));
    } else {
      InsertKeepsSizes(s, k, file, n);
    }
  }

  /** Whether an insert leaves the file that it wrote. */
  lemma {:induction false} OwnFileKept(s: State, k: Key, size: nat)
    requires Distinct(s.entries) && size <= s.capacity
    ensures k !in Keys(s.entries[..Evicted(s, size)]) <==> KeepsOwnFile(s, k, size)
  {
    FromTotal(s.entries, k, Evicted(s, size));
  }

  lemma {:induction false} OnDiskWhenAgree(s: State)
    requires Agree(s)
    ensures OnDisk(s)
  {
    forall i | 0 <= i < |s.entries| ensures s.entries[i].key in s.files {
      assert Recorded(s.entries[i], s.files);
    }
  }

  lemma {:induction false} InsertedKeys(es: seq<Entry>, e: Entry)
    requires Distinct(es)
    ensures Keys(Without(es, e.key) + [e]) == Keys(es) + {e.key}
    ensures Distinct(Without(es, e.key) + [e])
  {
    WithoutKeys(es, e.key);
    WithoutDistinct(es, e.key);
    var w := Without(es, e.key);
    KeysConcat(w, [e]);
    forall i | 0 <= i < |w| ensures w[i].key != e.key {
      KeyAt(w, i);
    }
  }

  lemma {:induction false} GetAgreement(s: State, k: Key, now: int)
    requires Agree(s)
    ensures Agree(Get(s, k, now).0)
    ensures Get(s, k, now).1 == if k in s.files then Opened(s.files[k].bytes) else FileNotInCache
  {
    if k in Keys(s.entries) {
      var e := From(s.entries, k)[0];
      TouchPermutes(s.entries, k);
      var t := Get(s, k, now).0;
      forall x | x in t.entries ensures Recorded(x, t.files) {
        assert x in s.entries;
      }
    }
  }

  lemma {:induction false} TouchPermutes(es: seq<Entry>, k: Key)
    requires Distinct(es) && k in Keys(es)
    ensures Distinct(LruTouch(es, k)) && Keys(LruTouch(es, k)) == Keys(es)
    ensures forall e :: e in LruTouch(es, k) ==> e in es
    ensures Total(LruTouch(es, k)) == Total(es)
  {
    var p := IndexOf(es, k);
    FromIsSuffix(es, p);
    InsertedKeys(es, es[p]);
    WithoutKeys(es, k);
    WithoutSplit(es, p);
    TotalConcat(es[..p], es[p..]);
    assert es == es[..p] + es[p..];
    TotalConcat(es[..p] + es[p + 1..], [es[p]]);
    TotalConcat(es[..p], es[p + 1..]);
    assert es[p..][1..] == es[p + 1..];
  }

  lemma {:induction false} WithoutSplit(es: seq<Entry>, p: nat)
    requires Distinct(es) && p < |es|
    ensures Without(es, es[p].key) == es[..p] + es[p + 1..]
  {
    if p == 0 {
      if es[0].key in Keys(es[1..]) {
        var i := IndexOf(es[1..], es[0].key);
        assert false;
      }
      WithoutAbsent(es[1..], es[0].key);
      assert Without(es, es[0].key) == es[1..];
    } else {
      WithoutSplit(es[1..], p - 1);
      assert es[1..][..p - 1] == es[..p][1..];
      assert es[1..][p..] == es[p + 1..];
    }
  }

  /** An operation that is refused or that leaves its own file in place. */
  predicate Harmless(s: State, op: Op) {
    op.InsertOp? && |op.file.bytes| <= s.capacity ==> KeepsOwnFile(s, op.key, |op.file.bytes|)
  }

  ghost predicate AgreeThroughout(s: State, ops: seq<Op>)
    decreases |ops|
  {
    Agree(s) && (ops != [] ==> AgreeThroughout(Apply(s, ops[0]).0, ops[1..]))
  }

  predicate HarmlessThroughout(s: State, ops: seq<Op>)
    decreases |ops|
  {
    ops != [] ==> Harmless(s, ops[0]) && HarmlessThroughout(Apply(s, ops[0]).0, ops[1..])
  }

  /** Over whole runs: index and disk agree in every state passed through
      exactly when every re-insert left its own file in place. */
  lemma {:induction false} RunAgreement(s: State, ops: seq<Op>)
    requires Agree(s)
    ensures AgreeThroughout(s, ops) <==> HarmlessThroughout(s, ops)
    decreases |ops|
  {
    if ops != [] {
      match ops[0] {
        case InsertOp(k, file) =>
          if |file.bytes| <= s.capacity { InsertAgreement(s, k, file); }
        case GetOp(k, now) => GetAgreement(s, k, now);
      }
      var t := Apply(s, ops[0]).0;
      if Agree(t) { RunAgreement(t, ops[1..]); }
    }
  }
}
