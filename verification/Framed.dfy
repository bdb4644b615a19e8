/** A stream of frames that arrives in chunks, for any codec: the transport
    keeps a buffer and decodes while messages come out of it. */
module Framed {
  import opened Octets

  datatype Decoded<+T> =
    | NeedMore
    | Message(value: T, size: nat)
    | Broken

  function Concat(chunks: seq<Bytes>): Bytes {
    if chunks == [] then [] else chunks[0] + Concat(chunks[1..])
  }

  function Flatten<T>(found: seq<seq<T>>): seq<T> {
    if found == [] then [] else found[0] + Flatten(found[1..])
  }

  /** Decodes until more bytes are needed: the messages found, what is left in
      the buffer, and whether the stream is still good. */
  function Drain<T>(decode: Bytes -> Decoded<T>, buf: Bytes): (seq<T>, Bytes, bool)
    decreases |buf|
  {
    match decode(buf)
    case NeedMore => ([], buf, true)
    case Broken => ([], buf, false)
    case Message(m, size) =>
      if 0 < size <= |buf| then
        var (more, rest, ok) := Drain(decode, buf[size..]);
        ([m] + more, rest, ok)
      else ([], buf, false)
  }

  /** What each arriving chunk yields. */
  function Feed<T>(decode: Bytes -> Decoded<T>, buf: Bytes, chunks: seq<Bytes>): (seq<seq<T>>, Bytes, bool)
    decreases |chunks|
  {
    if chunks == [] then ([], buf, true)
    else
      var (found, rest, ok) := Drain(decode, buf + chunks[0]);
      if !ok then ([found], rest, false)
      else
        var (more, last, good) := Feed(decode, rest, chunks[1..]);
        ([found] + more, last, good)
  }

  /** `frame` is decoded to `m` whatever follows it, and no proper prefix of it
      is decoded to anything. */
  ghost predicate Frames<T(!new)>(decode: Bytes -> Decoded<T>, frame: Bytes, m: T) {
    && frame != []
    && (forall rest: Bytes :: decode(frame + rest) == Message(m, |frame|))
    && (forall part: Bytes :: part < frame ==> decode(part) == NeedMore)
  }

  ghost predicate FramesAll<T(!new)>(decode: Bytes -> Decoded<T>, frames: seq<Bytes>, ms: seq<T>) {
    |frames| == |ms| && decode([]) == NeedMore && forall i :: 0 <= i < |ms| ==> Frames(decode, frames[i], ms[i])
  }

  // ----- Byte streams -----

  /** A prefix of a concatenation ends inside one of its parts. */
  lemma {:induction false} SplitPrefix(fs: seq<Bytes>, buf: Bytes) returns (k: nat, rest: Bytes)
    requires buf <= Concat(fs)
    ensures k <= |fs| && buf == Concat(fs[..k]) + rest && rest <= Concat(fs[k..])
    ensures if k < |fs| then rest < fs[k] else rest == []
    decreases |fs|
  {
    if fs == [] {
      k, rest := 0, [];
    } else if |buf| < |fs[0]| {
      k, rest := 0, buf;
      assert fs[0..] == fs;
      assert buf < fs[0] by { assert Concat(fs)[..|fs[0]|] == fs[0]; }
    } else {
      assert Concat(fs)[..|fs[0]|] == fs[0] && Concat(fs)[|fs[0]|..] == Concat(fs[1..]);
      var tail := buf[|fs[0]|..];
      assert buf == fs[0] + tail;
      k, rest := SplitPrefix(fs[1..], tail);
      assert fs[..k + 1][1..] == fs[1..][..k] && fs[1..][k..] == fs[k + 1..];
      assert fs[0] + (Concat(fs[1..][..k]) + rest) == fs[0] + Concat(fs[1..][..k]) + rest;
      k := k + 1;
    }
  }

  lemma {:induction false} ConcatConcat(a: seq<Bytes>, b: seq<Bytes>)
    ensures Concat(a + b) == Concat(a) + Concat(b)
  {
    if a == [] {
      assert a + b == b;
    } else {
      assert (a + b)[1..] == a[1..] + b;
      ConcatConcat(a[1..], b);
    }
  }

  /** How many frames the first `n` bytes of the stream complete. */
  function Complete(fs: seq<Bytes>, n: nat): (k: nat)
    ensures k <= |fs|
    decreases |fs|
  {
    if fs == [] || n < |fs[0]| then 0 else 1 + Complete(fs[1..], n - |fs[0]|)
  }

  /** `Complete` counts exactly: the counted frames fit in the `n` bytes, and
      the next one does not. */
  lemma {:induction false} CompleteCounts(fs: seq<Bytes>, n: nat)
    ensures
      var k := Complete(fs, n);
      |Concat(fs[..k])| <= n && (k < |fs| ==> |Concat(fs[..k])| + |fs[k]| > n)
    decreases |fs|
  {
    if fs != [] && n >= |fs[0]| {
      CompleteCounts(fs[1..], n - |fs[0]|);
      var k := Complete(fs, n);
      assert fs[..k][1..] == fs[1..][..k - 1];
    }
  }

  lemma {:induction false} CompleteSkips(fs: seq<Bytes>, n: nat, k: nat)
    requires k <= |fs| && |Concat(fs[..k])| <= n
    ensures Complete(fs, n) == k + Complete(fs[k..], n - |Concat(fs[..k])|)
    decreases k
  {
    if k == 0 {
      assert fs[0..] == fs;
    } else {
      assert fs[..k][1..] == fs[1..][..k - 1] && fs[1..][k - 1..] == fs[k..];
      CompleteSkips(fs[1..], n - |fs[0]|, k - 1);
    }
  }

  lemma {:induction false} AllComplete(fs: seq<Bytes>)
    ensures Complete(fs, |Concat(fs)|) == |fs|
  {
    if fs != [] { AllComplete(fs[1..]); }
  }

  // ----- Decoding -----

  /** Whole frames are found, the part after them waits. */
  lemma {:induction false} DrainFrames<T(!new)>(decode: Bytes -> Decoded<T>, fs: seq<Bytes>, ms: seq<T>, rest: Bytes)
    requires FramesAll(decode, fs, ms) && decode(rest) == NeedMore
    ensures Drain(decode, Concat(fs) + rest) == (ms, rest, true)
    decreases |fs|
  {
    if fs == [] {
      assert Concat(fs) + rest == rest;
    } else {
      assert Frames(decode, fs[0], ms[0]);
      var tail := Concat(fs[1..]) + rest;
      assert Concat(fs) + rest == fs[0] + tail;
      assert decode(fs[0] + tail) == Message(ms[0], |fs[0]|);
      assert (fs[0] + tail)[|fs[0]|..] == tail;
      DrainFrames(decode, fs[1..], ms[1..], rest);
      assert [ms[0]] + ms[1..] == ms;
    }
  }

  lemma {:induction false} DrainPrefix<T(!new)>(decode: Bytes -> Decoded<T>, fs: seq<Bytes>, ms: seq<T>, buf: Bytes)
    returns (k: nat, rest: Bytes)
    requires FramesAll(decode, fs, ms) && buf <= Concat(fs)
    ensures k <= |fs| && buf == Concat(fs[..k]) + rest && rest <= Concat(fs[k..])
    ensures if k < |fs| then rest < fs[k] else rest == []
    ensures Drain(decode, buf) == (ms[..k], rest, true)
  {
    k, rest := SplitPrefix(fs, buf);
    if k < |fs| {
      assert Frames(decode, fs[k], ms[k]);
      assert decode(rest) == NeedMore;
    }
    DrainFrames(decode, fs[..k], ms[..k], rest);
  }

  /** The buffer holds the start of the next frame, and no more. */
  ghost predicate Waiting(fs: seq<Bytes>, buf: Bytes) {
    if fs == [] then buf == [] else buf < fs[0]
  }

  /** After each chunk, exactly the messages completed so far have come out, in
      order: none early, none late. */
  ghost predicate Punctual<T>(fs: seq<Bytes>, ms: seq<T>, got: nat, found: seq<seq<T>>, chunks: seq<Bytes>)
    requires |fs| == |ms|
  {
    && |found| == |chunks|
    && forall i :: 0 <= i <= |chunks| ==>
         Flatten(found[..i]) == ms[..Complete(fs, got + |Concat(chunks[..i])|)]
  }

  lemma {:induction false} CutPrefix(done: Bytes, rest: Bytes, tail: Bytes, later: Bytes)
    requires done + rest + tail <= done + later
    ensures rest + tail <= later
    ensures done + rest + tail == done + later ==> rest + tail == later
  {
    assert (done + later)[|done|..] == later;
    assert (done + rest + tail)[|done|..] == rest + tail;
  }

  lemma {:induction false} Remaining(fs: seq<Bytes>, now: Bytes, tail: Bytes, k: nat, rest: Bytes)
    requires k <= |fs| && now == Concat(fs[..k]) + rest && now + tail <= Concat(fs)
    ensures rest + tail <= Concat(fs[k..])
    ensures now + tail == Concat(fs) ==> rest + tail == Concat(fs[k..])
  {
    assert Concat(fs) == Concat(fs[..k]) + Concat(fs[k..]) by {
      assert fs == fs[..k] + fs[k..];
      ConcatConcat(fs[..k], fs[k..]);
    }
    CutPrefix(Concat(fs[..k]), rest, tail, Concat(fs[k..]));
  }

  lemma {:induction false} FlattenPrefix<T>(first: seq<T>, more: seq<seq<T>>, i: nat)
    requires 0 < i <= |more| + 1
    ensures Flatten(([first] + more)[..i]) == first + Flatten(more[..i - 1])
  {
    assert ([first] + more)[..i][1..] == more[..i - 1];
  }

  lemma {:induction false} FirstChunk(chunks: seq<Bytes>, i: nat)
    requires 0 < i <= |chunks|
    ensures |Concat(chunks[..i])| == |chunks[0]| + |Concat(chunks[1..][..i - 1])|
  {
    assert chunks[..i][1..] == chunks[1..][..i - 1];
  }

  /** Counting from the start of the stream and from the `k`th frame agree. */
  lemma {:induction false} CountLater(fs: seq<Bytes>, k: nat, rest: nat, buf: nat, chunks: seq<Bytes>, i: nat)
    requires 0 < i <= |chunks| && k <= |fs| && buf + |chunks[0]| == |Concat(fs[..k])| + rest
    ensures Complete(fs, buf + |Concat(chunks[..i])|)
         == k + Complete(fs[k..], rest + |Concat(chunks[1..][..i - 1])|)
  {
    FirstChunk(chunks, i);
    CompleteSkips(fs, buf + |Concat(chunks[..i])|, k);
  }

  lemma {:induction false} PunctualStep<T>(fs: seq<Bytes>, ms: seq<T>, k: nat, rest: Bytes, buf: Bytes,
                        chunks: seq<Bytes>,
                        more: seq<seq<T>>)
    requires chunks != [] && k <= |fs| == |ms| && Waiting(fs, buf) && buf + chunks[0] == Concat(fs[..k]) + rest
    requires Punctual(fs[k..], ms[k..], |rest|, more, chunks[1..])
    ensures Punctual(fs, ms, |buf|, [ms[..k]] + more, chunks)
  {
    assert |buf| + |chunks[0]| == |buf + chunks[0]| == |Concat(fs[..k])| + |rest|;
    forall i | 0 <= i <= |chunks|
      ensures Flatten(([ms[..k]] + more)[..i]) == ms[..Complete(fs, |buf| + |Concat(chunks[..i])|)]
    {
      if i == 0 {
        assert ([ms[..k]] + more)[..0] == [] && chunks[..0] == [];
      } else {
        CountLater(fs, k, |rest|, |buf|, chunks, i);
        FlattenPrefix(ms[..k], more, i);
        var j := Complete(fs[k..], |rest| + |Concat(chunks[1..][..i - 1])|);
        assert ms[..k] + ms[k..][..j] == ms[..k + j];
      }
    }
  }

  lemma {:induction false} FeedPrefix<T(!new)>(decode: Bytes -> Decoded<T>, fs: seq<Bytes>, ms: seq<T>,
                                              buf: Bytes, chunks: seq<Bytes>)
    requires FramesAll(decode, fs, ms) && Waiting(fs, buf) && buf + Concat(chunks) <= Concat(fs)
    ensures
      var (found, rest, ok) := Feed(decode, buf, chunks);
      ok && Punctual(fs, ms, |buf|, found, chunks)
    ensures buf + Concat(chunks) == Concat(fs) ==> Feed(decode, buf, chunks).1 == []
    decreases |chunks|
  {
    if chunks == [] {
      assert Feed(decode, buf, chunks).0 == [];
    } else {
      var now := buf + chunks[0];
      assert buf + Concat(chunks) == now + Concat(chunks[1..]);
      assert now <= Concat(fs);
      var k, rest := DrainPrefix(decode, fs, ms, now);
      Remaining(fs, now, Concat(chunks[1..]), k, rest);
      FeedPrefix(decode, fs[k..], ms[k..], rest, chunks[1..]);
      PunctualStep(fs, ms, k, rest, buf, chunks, Feed(decode, rest, chunks[1..]).0);
    }
  }

  /** Chunking does not matter. However a stream of frames is split into
      chunks, decoding yields exactly its messages in order, each with the
      chunk that completes it, and leaves the buffer empty. */
  lemma {:induction false} ChunkingDoesNotMatter<T(!new)>(decode: Bytes -> Decoded<T>, fs: seq<Bytes>, ms: seq<T>,
                                                        chunks: seq<Bytes>)
    requires FramesAll(decode, fs, ms) && Concat(chunks) == Concat(fs)
    ensures
      var (found, rest, ok) := Feed(decode, [], chunks);
      ok && rest == [] && Flatten(found) == ms && Punctual(fs, ms, 0, found, chunks)
  {
    assert [] + Concat(chunks) == Concat(fs);
    if fs != [] { assert Frames(decode, fs[0], ms[0]); }
    FeedPrefix(decode, fs, ms, [], chunks);
    var found := Feed(decode, [], chunks).0;
    assert found[..|chunks|] == found && chunks[..|chunks|] == chunks;
    AllComplete(fs);
    assert ms[..|ms|] == ms;
  }
}
