/** A line with one more option on it, compared with the line without. */
module OneMoreOption {
  import opened CompilerArguments
  import opened ArgumentUnits

  /** `ys` is `xs` with `more` put in at some place. */
  ghost predicate Grown(xs: seq<string>, ys: seq<string>, more: seq<string>) {
    exists i :: 0 <= i <= |xs| && ys == xs[..i] + more + xs[i..]
  }

  /** The parse is the same, but that these arguments are among the common ones
      too. */
  ghost predicate AddsCommon(without: Parsed, with: Parsed, more: seq<string>) {
    if without.Accepted?
    then with.Accepted? && Grown(without.args.commonArgs, with.args.commonArgs, more)
         && with.args == without.args.(commonArgs := with.args.commonArgs)
    else with == without
  }

  lemma {:induction false} GrowsAt(a: seq<string>, more: seq<string>, b: seq<string>)
    ensures Grown(a + b, a + more + b, more)
  {
    assert (a + b)[..|a|] == a && (a + b)[|a|..] == b;
  }

  lemma {:induction false} GrownByNothing(xs: seq<string>, ys: seq<string>)
    requires Grown(xs, ys, [])
    ensures ys == xs
  {
    var i :| 0 <= i <= |xs| && ys == xs[..i] + [] + xs[i..];
    assert xs[..i] + [] + xs[i..] == xs;
  }

  lemma {:induction false} GrowsBefore(xs: seq<string>, ys: seq<string>, more: seq<string>, tail: seq<string>)
    requires Grown(xs, ys, more)
    ensures Grown(xs + tail, ys + tail, more)
  {
    var i :| 0 <= i <= |xs| && ys == xs[..i] + more + xs[i..];
    assert (xs + tail)[..i] == xs[..i] && (xs + tail)[i..] == xs[i..] + tail;
    assert ys + tail == (xs + tail)[..i] + more + (xs + tail)[i..];
  }

  lemma {:induction false} BucketGrows<A>(a: seq<Unit<A>>, u: Unit<A>, b: seq<Unit<A>>, bucket: A -> bool)
    ensures Grown(Bucket(a + b, bucket), Bucket(a + [u] + b, bucket), Picked(u, bucket))
  {
    InsertedBucket(a, u, b, bucket);
    GrowsAt(Bucket(a, bucket), Picked(u, bucket), Bucket(b, bucket));
  }

  /** Both lines, in units. */
  lemma {:induction false} WithAndWithout<A>(front: seq<string>, u: Unit<A>, rest: seq<string>, g: Grammar<A>)
    requires !Dangling(Units(front, g), g) && OfItsArm(u, g) && (g.wantsValue(u.arm) ==> u.value.Some?)
    ensures Units(front + u.Tokens() + rest, g) == Units(front, g) + [u] + Units(rest, g)
    ensures Units(front + rest, g) == Units(front, g) + Units(rest, g)
  {
    var us, later := Units(front, g), Units(rest, g);
    FirstAgain(u, rest, g);
    UnitsJoin(front, u.Tokens() + rest, g);
    Regrouped(front, u.Tokens(), rest);
    Regrouped(us, [u], later);
    if rest == [] {
      assert front + rest == front && us + later == us;
    } else {
      UnitsJoin(front, rest, g);
    }
  }
}
