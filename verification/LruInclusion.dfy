/** A larger cache never loses a hit. The contents of the cache are always the
    longest suffix of the recency history that fits, so the contents at a
    smaller capacity are a suffix of those at a larger one. */
module LruInclusion {
  import opened Octets
  import opened Recency
  import opened LruDisk

  /** `get`, then `insert_bytes` on a miss. */
  function Access(s: State, k: Key, content: Bytes, now: int): State {
    var (t, reply) := Get(s, k, now);
    if reply == FileNotInCache then InsertBy(t, k, File(content, now)).0 else t
  }

  function Accesses(s: State, keys: seq<Key>, contents: map<Key, Bytes>): State
    requires forall k :: k in keys ==> k in contents
  {
    if keys == [] then s
    else
      var before := Accesses(s, keys[..|keys| - 1], contents);
      Access(before, keys[|keys| - 1], contents[keys[|keys| - 1]], |keys|)
  }

  /** Every key ever accessed, in order of last access, most recent last. */
  function History(keys: seq<Key>, contents: map<Key, Bytes>): seq<Entry>
    requires forall k :: k in keys ==> k in contents
  {
    if keys == [] then []
    else
      var k := keys[|keys| - 1];
      Without(History(keys[..|keys| - 1], contents), k) + [Entry(k, |contents[k]|)]
  }

  function Empty(capacity: nat): State {
    State(capacity, [], map[])
  }

  // ----- Sequences: refreshing an entry of the history -----

  lemma {:induction false} WithoutConcat(a: seq<Entry>, b: seq<Entry>, k: Key)
    ensures Without(a + b, k) == Without(a, k) + Without(b, k)
  {
    if a == [] {
      assert a + b == b;
    } else {
      assert (a + b)[1..] == a[1..] + b;
      WithoutConcat(a[1..], b, k);
    }
  }

  /** Dropping from the front of something that is too large anyway. */
  lemma {:induction false} MakeRoomSkips(a: seq<Entry>, b: seq<Entry>, capacity: nat)
    requires a != [] ==> a[|a| - 1].size + Total(b) > capacity
    ensures MakeRoom(a + b, capacity, 0) == MakeRoom(b, capacity, 0)
  {
    if a == [] {
      assert a + b == b;
    } else {
      var last := a[|a| - 1];
      assert a == a[..|a| - 1] + [last];
      TotalConcat(a[..|a| - 1], [last]);
      TotalConcat(a, b);
      assert (a + b)[1..] == a[1..] + b;
      MakeRoomSkips(a[1..], b, capacity);
    }
  }

  /** A history splits into what was dropped and what is kept, and the youngest
      of the dropped would not fit on top of the kept. */
  lemma {:induction false} MakeRoomSplits(h: seq<Entry>, capacity: nat) returns (a: seq<Entry>)
    ensures h == a + MakeRoom(h, capacity, 0)
    ensures a != [] ==> a[|a| - 1].size + Total(MakeRoom(h, capacity, 0)) > capacity
  {
    if h == [] || Total(h) <= capacity {
      a := [];
    } else {
      var rest := MakeRoomSplits(h[1..], capacity);
      a := [h[0]] + rest;
      if rest == [] { assert MakeRoom(h[1..], capacity, 0) == h[1..]; }
    }
  }

  /** A hit refreshes the kept part as it refreshes the history. */
  lemma {:induction false} RefreshOnHit(h: seq<Entry>, e: Entry, capacity: nat)
    requires Distinct(h) && e in MakeRoom(h, capacity, 0)
    requires Total(MakeRoom(h, capacity, 0)) <= capacity
    ensures MakeRoom(Without(h, e.key) + [e], capacity, 0)
         == Without(MakeRoom(h, capacity, 0), e.key) + [e]
  {
    var kept := MakeRoom(h, capacity, 0);
    var a := MakeRoomSplits(h, capacity);
    SplitKeys(h, |a|);
    assert h[..|a|] == a && h[|a|..] == kept;
    KeyOf(kept, e);
    WithoutConcat(a, kept, e.key);
    WithoutAbsent(a, e.key);
    var refreshed := Without(kept, e.key) + [e];
    var p := IndexOf(kept, e.key);
    assert kept[p] == e by {
      var q :| 0 <= q < |kept| && kept[q] == e;
      assert h[|a| + q] == e && h[|a| + p] == kept[p];
    }
    RefreshedTotal(kept, p);
    assert Without(h, e.key) + [e] == a + refreshed;
    MakeRoomSkips(a, refreshed, capacity);
  }

  lemma {:induction false} RefreshedTotal(es: seq<Entry>, p: nat)
    requires Distinct(es) && p < |es|
    ensures Total(Without(es, es[p].key) + [es[p]]) == Total(es)
  {
    WithoutSplit(es, p);
    assert es == es[..p] + es[p..];
    TotalConcat(es[..p], es[p..]);
    assert es[p..][1..] == es[p + 1..];
    TotalConcat(es[..p], es[p + 1..]);
    TotalConcat(es[..p] + es[p + 1..], [es[p]]);
  }

  /** A miss adds to the kept part as it adds to the history, even when the
      key is an old one that was dropped before. */
  lemma {:induction false} RefreshOnMiss(h: seq<Entry>, e: Entry, capacity: nat)
    requires Distinct(h) && e.size <= capacity
    requires forall x :: x in h && x.key == e.key ==> x.size == e.size
    requires e.key !in Keys(MakeRoom(h, capacity, 0))
    ensures MakeRoom(Without(h, e.key) + [e], capacity, 0)
         == MakeRoom(MakeRoom(h, capacity, 0) + [e], capacity, 0)
  {
    var kept := MakeRoom(h, capacity, 0);
    var a := MakeRoomSplits(h, capacity);
    WithoutConcat(a, kept, e.key);
    WithoutAbsent(kept, e.key);
    var b := Without(a, e.key);
    assert Without(h, e.key) + [e] == b + (kept + [e]);
    TotalConcat(kept, [e]);
    if a != [] {
      assert a[|a| - 1] in h;
      LastOfOthersStays(a, e.key);
      MakeRoomSkips(b, kept + [e], capacity);
    } else {
      assert Without(h, e.key) == kept;
    }
  }

  lemma {:induction false} LastOfOthersStays(a: seq<Entry>, k: Key)
    requires a != []
    ensures
      var b, last := Without(a, k), a[|a| - 1];
      last.key != k ==> b != [] && b[|b| - 1] == last
  {
    var before, last := a[..|a| - 1], a[|a| - 1];
    assert a == before + [last];
    WithoutConcat(before, [last], k);
    if last.key != k { assert Without([last], k) == [last]; }
  }

  // ----- Runs -----

  ghost predicate Sized(es: seq<Entry>, contents: map<Key, Bytes>) {
    forall e :: e in es ==> e.key in contents && e.size == |contents[e.key]|
  }

  lemma {:induction false} HistoryProperties(keys: seq<Key>, contents: map<Key, Bytes>)
    requires forall k :: k in keys ==> k in contents
    ensures Distinct(History(keys, contents)) && Sized(History(keys, contents), contents)
  {
    if keys != [] {
      var k := keys[|keys| - 1];
      var h := History(keys[..|keys| - 1], contents);
      HistoryProperties(keys[..|keys| - 1], contents);
      InsertedKeys(h, Entry(k, |contents[k]|));
      WithoutKeys(h, k);
    }
  }

  /** The cache holds, in the index and on disk, exactly the longest suffix of
      `h` that fits, each key with its fixed content. */
  ghost predicate Mirrors(s: State, h: seq<Entry>, contents: map<Key, Bytes>) {
    && Agree(s)
    && s.entries == MakeRoom(h, s.capacity, 0)
    && forall k :: k in s.files ==> k in contents && s.files[k].bytes == contents[k]
  }

  lemma {:induction false} HitMirrors(s: State, h: seq<Entry>, e: Entry, now: int, contents: map<Key, Bytes>)
    requires Mirrors(s, h, contents) && Distinct(h) && Sized(h, contents)
    requires e.key in contents && e.size == |contents[e.key]|
    requires e.key in Keys(s.entries)
    ensures Mirrors(Get(s, e.key, now).0, Without(h, e.key) + [e], contents)
    ensures Get(s, e.key, now).0.capacity == s.capacity
  {
    GetAgreement(s, e.key, now);
    var a := MakeRoomSplits(h, s.capacity);
    var p := IndexOf(s.entries, e.key);
    FromIsSuffix(s.entries, p);
    assert s.entries[p] in h;
    RefreshOnHit(h, e, s.capacity);
  }

  lemma {:induction false} MissMirrors(s: State, h: seq<Entry>, e: Entry, now: int, contents: map<Key, Bytes>)
    requires Mirrors(s, h, contents) && Distinct(h) && Sized(h, contents)
    requires e.key in contents && e.size == |contents[e.key]| <= s.capacity
    requires e.key !in Keys(s.entries)
    ensures Mirrors(InsertBy(s, e.key, File(contents[e.key], now)).0, Without(h, e.key) + [e], contents)
    ensures InsertBy(s, e.key, File(contents[e.key], now)).0.capacity == s.capacity
  {
    var file := File(contents[e.key], now);
    OnDiskWhenAgree(s);
    InsertOutcome(s, e.key, file);
    InsertAgreement(s, e.key, file);
    AddToFit(s.entries, s.capacity, e, Evicted(s, e.size));
    RefreshOnMiss(h, e, s.capacity);
  }

  lemma {:induction false} AddToFit(es: seq<Entry>, capacity: nat, e: Entry, n: nat)
    requires Distinct(es) && e.key !in Keys(es) && e.size <= capacity && n <= |es|
    requires n == |es| - |MakeRoom(es, capacity, e.size)|
    ensures Without(es[n..], e.key) + [e] == MakeRoom(es + [e], capacity, 0)
  {
    SplitKeys(es, n);
    WithoutAbsent(es[n..], e.key);
    MakeRoomIsMinimal(es, capacity, e.size);
    MakeRoomThenAdd(es, capacity, e);
  }

  lemma {:induction false} AccessMirrors(s: State, h: seq<Entry>, e: Entry, now: int, contents: map<Key, Bytes>)
    requires Mirrors(s, h, contents) && Distinct(h) && Sized(h, contents)
    requires e.key in contents && e.size == |contents[e.key]| <= s.capacity
    ensures Mirrors(Access(s, e.key, contents[e.key], now), Without(h, e.key) + [e], contents)
    ensures Access(s, e.key, contents[e.key], now).capacity == s.capacity
  {
    GetAgreement(s, e.key, now);
    if e.key in Keys(s.entries) {
      HitMirrors(s, h, e, now, contents);
    } else {
      MissMirrors(s, h, e, now, contents);
    }
  }

  lemma {:induction false} AccessesMirror(capacity: nat, keys: seq<Key>, contents: map<Key, Bytes>)
    requires forall k :: k in keys ==> k in contents && |contents[k]| <= capacity
    ensures Accesses(Empty(capacity), keys, contents).capacity == capacity
    ensures Mirrors(Accesses(Empty(capacity), keys, contents), History(keys, contents), contents)
  {
    if keys != [] {
      var k, rest := keys[|keys| - 1], keys[..|keys| - 1];
      AccessesMirror(capacity, rest, contents);
      HistoryProperties(rest, contents);
      AccessMirrors(Accesses(Empty(capacity), rest, contents), History(rest, contents),
                    Entry(k, |contents[k]|), |keys|, contents);
    }
  }

  /** The contents of the cache after any accesses are the longest suffix of
      the recency history that fits. */
  lemma {:induction false} ContentsAreRecentHistory(capacity: nat, keys: seq<Key>, contents: map<Key, Bytes>)
    requires forall k :: k in keys ==> k in contents && |contents[k]| <= capacity
    ensures Agree(Accesses(Empty(capacity), keys, contents))
    ensures LongestFit(Accesses(Empty(capacity), keys, contents).entries, History(keys, contents), capacity)
  {
    AccessesMirror(capacity, keys, contents);
    MakeRoomIsMinimal(History(keys, contents), capacity, 0);
  }

  lemma {:induction false} SuffixOfSuffix(a: seq<Entry>, b: seq<Entry>, es: seq<Entry>, small: nat, large: nat)
    requires small <= large && LongestFit(a, es, small) && LongestFit(b, es, large)
    ensures |a| <= |b| && a == b[|b| - |a|..]
  {
    if |b| < |a| {
      assert false;
    }
  }

  lemma {:induction false} HitsOnDisk(s: State, k: Key, now: int)
    requires Agree(s)
    ensures Get(s, k, now).1 == if k in Keys(s.entries) then Opened(s.files[k].bytes) else FileNotInCache
  {
    GetAgreement(s, k, now);
  }

  /** Inclusion: with one fixed size per key and no size above the smaller
      capacity, the smaller cache's contents are a suffix of the larger's, so
      each `get` that hits in the smaller hits in the larger, with the same
      bytes. */
  lemma {:induction false} LargerCacheKeepsHits(small: nat, large: nat, keys: seq<Key>, contents: map<Key, Bytes>)
    requires small <= large
    requires forall k :: k in keys ==> k in contents && |contents[k]| <= small
    ensures
      var s, t := Accesses(Empty(small), keys, contents), Accesses(Empty(large), keys, contents);
      && |s.entries| <= |t.entries| && s.entries == t.entries[|t.entries| - |s.entries|..]
      && forall k, now: int :: Get(s, k, now).1.Opened? ==> Get(t, k, now).1 == Get(s, k, now).1
  {
    var s, t := Accesses(Empty(small), keys, contents), Accesses(Empty(large), keys, contents);
    ContentsAreRecentHistory(small, keys, contents);
    ContentsAreRecentHistory(large, keys, contents);
    AccessesMirror(small, keys, contents);
    AccessesMirror(large, keys, contents);
    SuffixOfSuffix(s.entries, t.entries, History(keys, contents), small, large);
    HistoryProperties(keys, contents);
    var n := |t.entries| - |s.entries|;
    SplitKeys(t.entries, n);
    forall k, now: int | Get(s, k, now).1.Opened? ensures Get(t, k, now).1 == Get(s, k, now).1 {
      HitsOnDisk(s, k, now);
      HitsOnDisk(t, k, now);
    }
  }
}
