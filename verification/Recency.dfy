/** Recency orders: the sequences of (key, size) pairs, least recently used
    first, that stand for the contents of the `lru_cache` crate's map. */
module Recency {
  type Key = string

  datatype Entry = Entry(key: Key, size: nat)

  function Total(es: seq<Entry>): nat {
    if es == [] then 0 else es[0].size + Total(es[1..])
  }

  function Keys(es: seq<Entry>): set<Key> {
    if es == [] then {} else {es[0].key} + Keys(es[1..])
  }

  ghost predicate Distinct(es: seq<Entry>) {
    forall i, j :: 0 <= i < j < |es| ==> es[i].key != es[j].key
  }

  function Without(es: seq<Entry>, k: Key): seq<Entry> {
    if es == [] then [] else (if es[0].key == k then [] else [es[0]]) + Without(es[1..], k)
  }

  /** The part of the order from `k` on: `k` and everything younger. */
  function From(es: seq<Entry>, k: Key): (younger: seq<Entry>)
    ensures younger == [] <==> k !in Keys(es)
    ensures younger != [] ==> younger[0].key == k
  {
    if es == [] || es[0].key == k then es else From(es[1..], k)
  }

  /** What is left after removing the oldest entries, one at a time, until
      `need` more bytes fit. */
  function MakeRoom(es: seq<Entry>, capacity: nat, need: nat): seq<Entry> {
    if es == [] || Total(es) + need <= capacity then es else MakeRoom(es[1..], capacity, need)
  }

  /** The longest suffix whose total size is at most `capacity`. */
  ghost predicate LongestFit(kept: seq<Entry>, es: seq<Entry>, capacity: nat) {
    && |kept| <= |es|
    && kept == es[|es| - |kept|..]
    && Total(kept) <= capacity
    && forall i :: 0 <= i < |es| - |kept| ==> Total(es[i..]) > capacity
  }

  lemma {:induction false} TotalConcat(a: seq<Entry>, b: seq<Entry>)
    ensures Total(a + b) == Total(a) + Total(b)
  {
    if a == [] {
      assert a + b == b;
    } else {
      assert (a + b)[1..] == a[1..] + b;
      TotalConcat(a[1..], b);
    }
  }

  /** Eviction removes the shortest prefix that makes room: any longer suffix
      would not fit. */
  lemma {:induction false} MakeRoomIsMinimal(es: seq<Entry>, capacity: nat, need: nat)
    requires need <= capacity
    ensures LongestFit(MakeRoom(es, capacity, need), es, capacity - need)
  {
    if es == [] || Total(es) + need <= capacity {
    } else {
      var kept := MakeRoom(es[1..], capacity, need);
      MakeRoomIsMinimal(es[1..], capacity, need);
      var d := |es| - |kept|;
      assert es[1..][d - 1..] == es[d..];
      forall i | 0 <= i < d ensures Total(es[i..]) > capacity - need {
        if i == 0 {
          assert es[0..] == es;
        } else {
          assert es[1..][i - 1..] == es[i..];
        }
      }
    }
  }

  lemma {:induction false} LongestFitUnique(a: seq<Entry>, b: seq<Entry>, es: seq<Entry>, capacity: nat)
    requires LongestFit(a, es, capacity) && LongestFit(b, es, capacity)
    ensures a == b
  {
    assert |a| == |b|;
  }

  lemma {:induction false} FromIsSuffix(es: seq<Entry>, p: nat)
    requires p < |es| && Distinct(es)
    ensures From(es, es[p].key) == es[p..]
  {
    if p > 0 {
      FromIsSuffix(es[1..], p - 1);
      assert es[1..][p - 1..] == es[p..];
    }
  }

  lemma {:induction false} KeyAt(es: seq<Entry>, i: nat)
    requires i < |es|
    ensures es[i].key in Keys(es)
  {
    if i > 0 { KeyAt(es[1..], i - 1); }
  }

  lemma {:induction false} KeyOf(es: seq<Entry>, e: Entry)
    requires e in es
    ensures e.key in Keys(es)
  {
    var i :| 0 <= i < |es| && es[i] == e;
    KeyAt(es, i);
  }

  lemma {:induction false} IndexOf(es: seq<Entry>, k: Key) returns (i: nat)
    requires k in Keys(es)
    ensures i < |es| && es[i].key == k
  {
    if es[0].key == k {
      i := 0;
    } else {
      i := IndexOf(es[1..], k);
      i := i + 1;
    }
  }

  lemma {:induction false} WithoutKeys(es: seq<Entry>, k: Key)
    ensures Keys(Without(es, k)) == Keys(es) - {k}
    ensures forall e :: e in Without(es, k) ==> e in es
  {
    if es != [] {
      var out := Without(es[1..], k);
      WithoutKeys(es[1..], k);
      if es[0].key != k {
        assert ([es[0]] + out)[1..] == out;
      } else {
        assert Without(es, k) == out;
      }
    }
  }

  lemma {:induction false} WithoutDistinct(es: seq<Entry>, k: Key)
    requires Distinct(es)
    ensures Distinct(Without(es, k))
  {
    if es != [] {
      var out := Without(es[1..], k);
      WithoutDistinct(es[1..], k);
      WithoutKeys(es[1..], k);
      forall j | 0 <= j < |out| ensures out[j].key != es[0].key {
        assert out[j] in es[1..];
      }
    }
  }

  lemma {:induction false} WithoutTotal(es: seq<Entry>, k: Key)
    ensures Total(Without(es, k)) <= Total(es)
  {
    if es != [] {
      var out := Without(es[1..], k);
      WithoutTotal(es[1..], k);
      if es[0].key != k {
        assert ([es[0]] + out)[1..] == out;
      } else {
        assert Without(es, k) == out;
      }
    }
  }

  lemma {:induction false} WithoutAbsent(es: seq<Entry>, k: Key)
    requires k !in Keys(es)
    ensures Without(es, k) == es
  {
    if es != [] {
      WithoutAbsent(es[1..], k);
    }
  }

  lemma {:induction false} KeysConcat(a: seq<Entry>, b: seq<Entry>)
    ensures Keys(a + b) == Keys(a) + Keys(b)
  {
    if a == [] {
      assert a + b == b;
    } else {
      assert (a + b)[1..] == a[1..] + b;
      KeysConcat(a[1..], b);
    }
  }

  /** Making room twice is making the larger room once. */
  lemma {:induction false} MakeRoomTwice(es: seq<Entry>, capacity: nat, need: nat)
    ensures MakeRoom(MakeRoom(es, capacity, 0), capacity, need) == MakeRoom(es, capacity, need)
  {
    if es != [] && Total(es) > capacity {
      MakeRoomTwice(es[1..], capacity, need);
    }
  }

  /** Making room for an entry and then adding it is adding it and then
      keeping the longest suffix that fits. */
  lemma {:induction false} MakeRoomThenAdd(es: seq<Entry>, capacity: nat, e: Entry)
    requires e.size <= capacity
    ensures MakeRoom(es, capacity, e.size) + [e] == MakeRoom(es + [e], capacity, 0)
  {
    TotalConcat(es, [e]);
    if es == [] {
      assert es + [e] == [e];
    } else if Total(es) + e.size > capacity {
      assert (es + [e])[1..] == es[1..] + [e];
      MakeRoomThenAdd(es[1..], capacity, e);
    }
  }

  /** Keeping the longest suffix that fits after each addition is keeping it
      once at the end. */
  lemma {:induction false} FitAfterAdd(es: seq<Entry>, capacity: nat, e: Entry)
    requires e.size <= capacity
    ensures MakeRoom(MakeRoom(es, capacity, 0) + [e], capacity, 0) == MakeRoom(es + [e], capacity, 0)
  {
    MakeRoomThenAdd(MakeRoom(es, capacity, 0), capacity, e);
    MakeRoomTwice(es, capacity, e.size);
    MakeRoomThenAdd(es, capacity, e);
  }
}
