/** One archive format that meets what is taken of the zip format: numbers in
    unary, sequences after their length, objects one after the other. */
module Archives {
  import opened Options
  import opened Octets
  import CachedCompile
  import opened DiskStorage

  // ----- Numbers -----

  function Unary(n: nat): Bytes { if n == 0 then [0] else [1] + Unary(n - 1) }

  function ReadUnary(bs: Bytes): (r: Option<(nat, Bytes)>)
    ensures r.Some? ==> |r.value.1| < |bs|
  {
    if bs == [] || bs[0] > 1 then None
    else if bs[0] == 0 then Some((0, bs[1..]))
    else
      var r := ReadUnary(bs[1..]);
      if r.None? then None else Some((r.value.0 + 1, r.value.1))
  }

  lemma {:induction false} UnaryBack(n: nat, rest: Bytes)
    ensures ReadUnary(Unary(n) + rest) == Some((n, rest))
  {
    if n == 0 {
      assert ([0] + rest)[1..] == rest;
    } else {
      assert (Unary(n) + rest)[1..] == Unary(n - 1) + rest;
      UnaryBack(n - 1, rest);
    }
  }

  // ----- Sequences -----

  function WriteAll(ns: seq<nat>): Bytes { if ns == [] then [] else Unary(ns[0]) + WriteAll(ns[1..]) }

  function ReadMany(count: nat, bs: Bytes): (r: Option<(seq<nat>, Bytes)>)
    ensures r.Some? ==> |r.value.1| <= |bs|
  {
    if count == 0 then Some(([], bs))
    else
      var first := ReadUnary(bs);
      if first.None? then None
      else
        var rest := ReadMany(count - 1, first.value.1);
        if rest.None? then None else Some(([first.value.0] + rest.value.0, rest.value.1))
  }

  lemma {:induction false} AllBack(ns: seq<nat>, rest: Bytes)
    ensures ReadMany(|ns|, WriteAll(ns) + rest) == Some((ns, rest))
  {
    if ns == [] {
      assert WriteAll(ns) + rest == rest;
    } else {
      var tail := WriteAll(ns[1..]) + rest;
      assert WriteAll(ns) + rest == Unary(ns[0]) + tail;
      UnaryBack(ns[0], tail);
      AllBack(ns[1..], rest);
      assert [ns[0]] + ns[1..] == ns;
    }
  }

  function WriteSeq(ns: seq<nat>): (bs: Bytes)
    ensures bs != []
  {
    Unary(|ns|) + WriteAll(ns)
  }

  function ReadSeq(bs: Bytes): (r: Option<(seq<nat>, Bytes)>)
    ensures r.Some? ==> |r.value.1| < |bs|
  {
    var count := ReadUnary(bs);
    if count.None? then None else ReadMany(count.value.0, count.value.1)
  }

  lemma {:induction false} SeqBack(ns: seq<nat>, rest: Bytes)
    ensures ReadSeq(WriteSeq(ns) + rest) == Some((ns, rest))
  {
    assert WriteSeq(ns) + rest == Unary(|ns|) + (WriteAll(ns) + rest);
    UnaryBack(|ns|, WriteAll(ns) + rest);
    AllBack(ns, rest);
  }

  // ----- Names and contents -----

  function Codes(s: string): seq<nat> { seq(|s|, i requires 0 <= i < |s| => s[i] as int) }

  predicate IsChar(n: nat) { n < 0xD800 || 0xE000 <= n < 0x11_0000 }

  function Name(ns: seq<nat>): Option<string> {
    if forall n :: n in ns ==> IsChar(n) then Some(seq(|ns|, i requires 0 <= i < |ns| => CharOf(ns[i]))) else None
  }

  function CharOf(n: nat): char { if IsChar(n) then n as char else ' ' }

  lemma {:induction false} NameBack(s: string)
    ensures Name(Codes(s)) == Some(s)
  {
    forall n | n in Codes(s) ensures IsChar(n) {
      var i :| 0 <= i < |s| && n == s[i] as int;
    }
    assert Name(Codes(s)).value == s;
  }

  function Numbers(bs: Bytes): seq<nat> { seq(|bs|, i requires 0 <= i < |bs| => bs[i]) }

  function Content(ns: seq<nat>): Option<Bytes> {
    if forall n :: n in ns ==> n < 256 then Some(seq(|ns|, i requires 0 <= i < |ns| => ByteOf(ns[i]))) else None
  }

  function ByteOf(n: nat): byte { if n < 256 then n else 0 }

  lemma {:induction false} ContentBack(bs: Bytes)
    ensures Content(Numbers(bs)) == Some(bs)
  {
    forall n | n in Numbers(bs) ensures n < 256 {
      var i :| 0 <= i < |bs| && n == bs[i];
    }
    assert Content(Numbers(bs)).value == bs;
  }

  // ----- Archives -----

  type Object = (string, Bytes)

  function WriteObjects(os: seq<Object>): Bytes {
    if os == [] then []
    else WriteSeq(Codes(os[0].0)) + WriteSeq(Numbers(os[0].1)) + WriteObjects(os[1..])
  }

  function ReadObjects(bs: Bytes): Option<seq<Object>>
    decreases |bs|
  {
    if bs == [] then Some([])
    else
      var name := ReadSeq(bs);
      if name.None? then None
      else
        var content := ReadSeq(name.value.1);
        if content.None? || Name(name.value.0).None? || Content(content.value.0).None? then None
        else
          var rest := ReadObjects(content.value.1);
          if rest.None? then None
          else Some([(Name(name.value.0).value, Content(content.value.0).value)] + rest.value)
  }

  lemma {:induction false} ObjectsBack(os: seq<Object>)
    ensures ReadObjects(WriteObjects(os)) == Some(os)
  {
    if os != [] {
      var tail := WriteObjects(os[1..]);
      var numbers := WriteSeq(Numbers(os[0].1));
      assert WriteObjects(os) == WriteSeq(Codes(os[0].0)) + (numbers + tail);
      SeqBack(Codes(os[0].0), numbers + tail);
      SeqBack(Numbers(os[0].1), tail);
      NameBack(os[0].0);
      ContentBack(os[0].1);
      ObjectsBack(os[1..]);
      assert [os[0]] + os[1..] == os;
    }
  }

  function EntryOf(os: seq<Object>): Entry {
    if os == [] then map[] else EntryOf(os[1..])[os[0].0 := os[0].1]
  }

  /** The objects in some order. */
  ghost function ObjectsOf(e: Entry): seq<Object>
    decreases |e|
  {
    if e == map[] then []
    else
      var name :| name in e;
      assert |(e - {name}).Keys| < |e.Keys| by { assert (e - {name}).Keys == e.Keys - {name}; }
      [(name, e[name])] + ObjectsOf(e - {name})
  }

  lemma {:induction false} EntryBack(e: Entry)
    ensures EntryOf(ObjectsOf(e)) == e
    decreases |e|
  {
    if e != map[] {
      var os := ObjectsOf(e);
      var name := os[0].0;
      assert |(e - {name}).Keys| < |e.Keys| by { assert (e - {name}).Keys == e.Keys - {name}; }
      assert os[1..] == ObjectsOf(e - {name});
      EntryBack(e - {name});
    }
  }

  ghost function Pack(e: Entry): Bytes { [2] + WriteObjects(ObjectsOf(e)) }

  function Unpack(bs: Bytes): Option<Entry> {
    if bs == [] || bs[0] != 2 then None
    else
      var os := ReadObjects(bs[1..]);
      if os.None? then None else Some(EntryOf(os.value))
  }

  ghost function Archive(): Zip { Zip(e => Pack(e), bs => Unpack(bs)) }

  lemma {:induction false} ArchiveIsFaithful()
    ensures Faithful(Archive())
  {
    forall e: Entry ensures Unpack(Pack(e)) == Some(e) {
      assert Pack(e)[1..] == WriteObjects(ObjectsOf(e));
      ObjectsBack(ObjectsOf(e));
      EntryBack(e);
    }
  }
}
