/** Command lines as units: a flag alone or a flag with its value, each sorted
    by the arm of the parser that takes it. */
module ArgumentUnits {
  import opened Options

  /** Which arm takes an argument, and which arms go on to take a value. */
  datatype Grammar<!A> = Grammar(armOf: string -> A, wantsValue: A -> bool)

  datatype Unit<+A> = Unit(arm: A, flag: string, value: Option<string>) {
    function Tokens(): seq<string> {
      if value.Some? then [flag, value.value] else [flag]
    }
  }

  function FirstUnit<A>(tokens: seq<string>, g: Grammar<A>): (u: Unit<A>)
    requires tokens != []
    ensures |u.Tokens()| <= |tokens| && u.Tokens() == tokens[..|u.Tokens()|]
  {
    var arm := g.armOf(tokens[0]);
    Unit(arm, tokens[0], if g.wantsValue(arm) && |tokens| > 1 then Some(tokens[1]) else None)
  }

  function Units<A>(tokens: seq<string>, g: Grammar<A>): seq<Unit<A>>
    decreases |tokens|
  {
    if tokens == [] then []
    else
      var u := FirstUnit(tokens, g);
      [u] + Units(tokens[|u.Tokens()|..], g)
  }

  /** The tokens of the units with an arm in the bucket, in order. */
  function Bucket<A>(us: seq<Unit<A>>, bucket: A -> bool): seq<string> {
    if us == [] then []
    else Bucket(us[..|us| - 1], bucket) + if bucket(us[|us| - 1].arm) then us[|us| - 1].Tokens() else []
  }

  predicate Has<A(==)>(us: seq<Unit<A>>, arm: A) {
    exists i :: 0 <= i < |us| && us[i].arm == arm
  }

  /** The last unit with that arm. */
  function Last<A(==)>(us: seq<Unit<A>>, arm: A): Option<Unit<A>> {
    if us == [] then None
    else if us[|us| - 1].arm == arm then Some(us[|us| - 1])
    else Last(us[..|us| - 1], arm)
  }

  /** The units in the bucket, in order. */
  function Only<A>(us: seq<Unit<A>>, bucket: A -> bool): seq<Unit<A>> {
    if us == [] then [] else (if bucket(us[0].arm) then [us[0]] else []) + Only(us[1..], bucket)
  }

  function Flatten<A>(us: seq<Unit<A>>): seq<string> {
    if us == [] then [] else us[0].Tokens() + Flatten(us[1..])
  }

  // ----- Buckets -----

  lemma {:induction false} BucketConcat<A>(a: seq<Unit<A>>, b: seq<Unit<A>>, bucket: A -> bool)
    ensures Bucket(a + b, bucket) == Bucket(a, bucket) + Bucket(b, bucket)
    decreases |b|
  {
    if b == [] {
      assert a + b == a;
    } else {
      assert (a + b)[..|a + b| - 1] == a + b[..|b| - 1];
      BucketConcat(a, b[..|b| - 1], bucket);
    }
  }

  lemma {:induction false} BucketOne<A>(u: Unit<A>, bucket: A -> bool)
    ensures Bucket([u], bucket) == if bucket(u.arm) then u.Tokens() else []
  {
    assert [u][..0] == [];
  }

  lemma {:induction false} BucketHead<A>(us: seq<Unit<A>>, bucket: A -> bool)
    requires us != []
    ensures Bucket(us, bucket) == (if bucket(us[0].arm) then us[0].Tokens() else []) + Bucket(us[1..], bucket)
  {
    assert us == [us[0]] + us[1..];
    BucketConcat([us[0]], us[1..], bucket);
    BucketOne(us[0], bucket);
  }

  lemma {:induction false} BucketSource<A>(us: seq<Unit<A>>, bucket: A -> bool, token: string) returns (i: nat)
    requires token in Bucket(us, bucket)
    ensures i < |us| && bucket(us[i].arm) && token in us[i].Tokens()
    decreases |us|
  {
    var last := us[|us| - 1];
    if bucket(last.arm) && token in last.Tokens() {
      i := |us| - 1;
    } else {
      i := BucketSource(us[..|us| - 1], bucket, token);
    }
  }

  lemma {:induction false} UnitWithin<A>(us: seq<Unit<A>>, i: nat)
    requires i < |us|
    ensures forall token :: token in us[i].Tokens() ==> token in Flatten(us)
    decreases |us|
  {
    if i > 0 { UnitWithin(us[1..], i - 1); }
  }

  lemma {:induction false} BucketWithin<A>(us: seq<Unit<A>>, bucket: A -> bool)
    ensures forall token :: token in Bucket(us, bucket) ==> token in Flatten(us)
  {
    forall token | token in Bucket(us, bucket) ensures token in Flatten(us) {
      var i := BucketSource(us, bucket, token);
      UnitWithin(us, i);
    }
  }

  /** A unit of the bucket has its flag in it. */
  lemma {:induction false} BucketHolds<A>(us: seq<Unit<A>>, u: Unit<A>, bucket: A -> bool)
    requires u in us && bucket(u.arm)
    ensures u.flag in Bucket(us, bucket)
    decreases |us|
  {
    var before, last := us[..|us| - 1], us[|us| - 1];
    if u == last {
      assert u.Tokens()[0] == u.flag;
    } else {
      BucketHolds(before, u, bucket);
    }
  }

  lemma {:induction false} HasConcat<A>(a: seq<Unit<A>>, b: seq<Unit<A>>, arm: A)
    ensures Has(a + b, arm) <==> Has(a, arm) || Has(b, arm)
  {
    if Has(a, arm) {
      var i :| 0 <= i < |a| && a[i].arm == arm;
      assert (a + b)[i].arm == arm;
    }
    if Has(b, arm) {
      var i :| 0 <= i < |b| && b[i].arm == arm;
      assert (a + b)[|a| + i].arm == arm;
    }
  }

  lemma {:induction false} LastConcat<A>(a: seq<Unit<A>>, b: seq<Unit<A>>, arm: A)
    ensures Last(a + b, arm) == if Last(b, arm).Some? then Last(b, arm) else Last(a, arm)
    decreases |b|
  {
    if b == [] {
      assert a + b == a;
    } else {
      assert (a + b)[..|a + b| - 1] == a + b[..|b| - 1];
      LastConcat(a, b[..|b| - 1], arm);
    }
  }

  lemma {:induction false} LastOne<A>(u: Unit<A>, arm: A)
    ensures Last([u], arm) == if u.arm == arm then Some(u) else None
    ensures Has([u], arm) <==> u.arm == arm
  {
    assert [u][..0] == [];
    if u.arm == arm { assert [u][0].arm == arm; }
  }

  lemma {:induction false} LastSource<A>(us: seq<Unit<A>>, arm: A)
    ensures Last(us, arm).Some? <==> Has(us, arm)
    ensures Last(us, arm).Some? ==> Last(us, arm).value in us && Last(us, arm).value.arm == arm
    decreases |us|
  {
    if us != [] {
      var before, u := us[..|us| - 1], us[|us| - 1];
      LastSource(before, arm);
      assert us == before + [u];
      HasConcat(before, [u], arm);
      LastOne(u, arm);
    }
  }

  // ----- Conservation -----

  /** No token is lost, added or moved. */
  lemma {:induction false} UnitsConserve<A>(tokens: seq<string>, g: Grammar<A>)
    ensures Flatten(Units(tokens, g)) == tokens
    decreases |tokens|
  {
    if tokens != [] {
      var u := FirstUnit(tokens, g);
      UnitsConserve(tokens[|u.Tokens()|..], g);
    }
  }

  predicate OfItsArm<A(==)>(u: Unit<A>, g: Grammar<A>) {
    u.arm == g.armOf(u.flag) && (u.value.Some? ==> g.wantsValue(u.arm))
  }

  /** A flag that takes a value has one, unless it ends the command line. */
  predicate Complete<A>(us: seq<Unit<A>>, g: Grammar<A>) {
    forall i :: 0 <= i < |us| - 1 ==> g.wantsValue(us[i].arm) ==> us[i].value.Some?
  }

  lemma {:induction false} ValuesKept<A>(tokens: seq<string>, g: Grammar<A>)
    ensures forall u :: u in Units(tokens, g) ==> OfItsArm(u, g)
    ensures Complete(Units(tokens, g), g)
    decreases |tokens|
  {
    if tokens != [] {
      var u := FirstUnit(tokens, g);
      var rest := tokens[|u.Tokens()|..];
      ValuesKept(rest, g);
      var later := Units(rest, g);
      var us := [u] + later;
      assert us == Units(tokens, g);
      forall i | 0 <= i < |us| - 1 && g.wantsValue(us[i].arm) ensures us[i].value.Some? {
        if i > 0 { assert us[i] == later[i - 1]; }
      }
    }
  }

  // ----- Reading a bucket again -----

  lemma {:induction false} FirstAgain<A>(u: Unit<A>, later: seq<string>, g: Grammar<A>)
    requires OfItsArm(u, g)
    requires u.value.None? && g.wantsValue(u.arm) ==> later == []
    ensures Units(u.Tokens() + later, g) == [u] + Units(later, g)
  {
    var tokens := u.Tokens() + later;
    assert FirstUnit(tokens, g) == u;
    assert tokens[|u.Tokens()|..] == later;
  }

  /** The tokens of a bucket, read on their own, group into the same units. */
  lemma {:induction false} BucketAgain<A>(tokens: seq<string>, g: Grammar<A>, bucket: A -> bool)
    ensures Units(Bucket(Units(tokens, g), bucket), g) == Only(Units(tokens, g), bucket)
    decreases |tokens|
  {
    if tokens != [] {
      var us := Units(tokens, g);
      var u := FirstUnit(tokens, g);
      var rest := tokens[|u.Tokens()|..];
      assert us == [u] + Units(rest, g) && us[1..] == Units(rest, g);
      BucketAgain(rest, g, bucket);
      BucketHead(us, bucket);
      var later := Bucket(us[1..], bucket);
      if bucket(u.arm) {
        if g.wantsValue(u.arm) && u.value.None? { assert rest == [] && us[1..] == []; }
        FirstAgain(u, later, g);
      } else {
        assert Bucket(us, bucket) == later;
        assert Only(us, bucket) == Only(us[1..], bucket);
      }
    }
  }

  /** What `Only` keeps. */
  lemma {:induction false} OnlyKeeps<A>(us: seq<Unit<A>>, bucket: A -> bool)
    ensures Bucket(Only(us, bucket), bucket) == Bucket(us, bucket)
    ensures forall u :: u in Only(us, bucket) ==> bucket(u.arm)
    decreases |us|
  {
    if us != [] {
      var rest := Only(us[1..], bucket);
      OnlyKeeps(us[1..], bucket);
      BucketHead(us, bucket);
      if bucket(us[0].arm) {
        BucketHead([us[0]] + rest, bucket);
        assert ([us[0]] + rest)[1..] == rest;
      } else {
        assert Only(us, bucket) == rest;
      }
    }
  }

  lemma {:induction false} BucketMore<A>(us: seq<Unit<A>>, u: Unit<A>, bucket: A -> bool)
    ensures Bucket(us + [u], bucket) == Bucket(us, bucket) + if bucket(u.arm) then u.Tokens() else []
  {
    BucketConcat(us, [u], bucket);
    BucketOne(u, bucket);
  }

  lemma {:induction false} LastMore<A>(us: seq<Unit<A>>, u: Unit<A>, arm: A)
    ensures Last(us + [u], arm) == if u.arm == arm then Some(u) else Last(us, arm)
  {
    LastConcat(us, [u], arm);
    LastOne(u, arm);
  }

  lemma {:induction false} HasMore<A>(us: seq<Unit<A>>, u: Unit<A>, arm: A)
    ensures Has(us + [u], arm) <==> Has(us, arm) || u.arm == arm
  {
    HasConcat(us, [u], arm);
    assert Has([u], arm) <==> [u][0].arm == arm;
  }

  /** `Only` does not change which kept arms there are, nor the last of each. */
  lemma {:induction false} OnlyKeepsArm<A>(us: seq<Unit<A>>, bucket: A -> bool, arm: A)
    requires bucket(arm)
    ensures Last(Only(us, bucket), arm) == Last(us, arm)
    ensures Has(Only(us, bucket), arm) <==> Has(us, arm)
    decreases |us|
  {
    if us != [] {
      var rest := Only(us[1..], bucket);
      OnlyKeepsArm(us[1..], bucket, arm);
      assert us == [us[0]] + us[1..];
      LastConcat([us[0]], us[1..], arm);
      LastOne(us[0], arm);
      if bucket(us[0].arm) {
        LastConcat([us[0]], rest, arm);
      } else {
        assert Only(us, bucket) == rest;
      }
    }
    LastSource(us, arm);
    LastSource(Only(us, bucket), arm);
  }

  /** A bucket and an arm that none of the units belong to. */
  lemma {:induction false} NoneOf<A>(us: seq<Unit<A>>, kept: A -> bool, bucket: A -> bool, arm: A)
    requires forall u :: u in us ==> kept(u.arm)
    requires !kept(arm) && forall u :: u in us ==> !bucket(u.arm)
    ensures Bucket(us, bucket) == [] && Last(us, arm) == None && !Has(us, arm)
    decreases |us|
  {
    if us != [] {
      var before := us[..|us| - 1];
      NoneOf(before, kept, bucket, arm);
    }
    LastSource(us, arm);
  }

  // ----- Putting lines together -----

  /** The line ends in a flag that still wants its value. */
  predicate Dangling<A>(us: seq<Unit<A>>, g: Grammar<A>) {
    us != [] && g.wantsValue(us[|us| - 1].arm) && us[|us| - 1].value.None?
  }

  /** The same units, with the last flag given a value. */
  function Filled<A>(us: seq<Unit<A>>, value: string): seq<Unit<A>>
    requires us != []
  {
    us[..|us| - 1] + [us[|us| - 1].(value := Some(value))]
  }

  /** What becomes of the units of a line that goes on with `b`. */
  function Continued<A>(us: seq<Unit<A>>, b: seq<string>, g: Grammar<A>): seq<Unit<A>>
    requires b != []
  {
    if Dangling(us, g) then Filled(us, b[0]) + Units(b[1..], g) else us + Units(b, g)
  }

  lemma {:induction false} OneDangles<A>(u: Unit<A>, b: seq<string>, g: Grammar<A>)
    requires b != [] && OfItsArm(u, g) && g.wantsValue(u.arm) && u.value.None?
    ensures Units([u.flag] + b, g) == Continued([u], b, g)
  {
    var full := u.(value := Some(b[0]));
    assert [u.flag] + b == full.Tokens() + b[1..];
    FirstAgain(full, b[1..], g);
    assert Filled([u], b[0]) == [full];
  }

  lemma {:induction false} FilledFirst<A>(u: Unit<A>, us: seq<Unit<A>>, value: string)
    requires us != []
    ensures Filled([u] + us, value) == [u] + Filled(us, value)
  {
    assert ([u] + us)[..|us|] == [u] + us[..|us| - 1];
  }

  lemma {:induction false} DanglesBehind<A>(u: Unit<A>, us: seq<Unit<A>>, g: Grammar<A>)
    requires !(g.wantsValue(u.arm) && u.value.None?)
    ensures Dangling([u] + us, g) <==> Dangling(us, g)
  {
    if us != [] { assert ([u] + us)[|us|] == us[|us| - 1]; }
  }

  lemma {:induction false} JoinFirst<A>(u: Unit<A>, us: seq<Unit<A>>, b: seq<string>, g: Grammar<A>)
    requires b != [] && !(g.wantsValue(u.arm) && u.value.None?)
    ensures Continued([u] + us, b, g) == [u] + Continued(us, b, g)
  {
    DanglesBehind(u, us, g);
    var all, tail := Units(b, g), Units(b[1..], g);
    if Dangling(us, g) {
      FilledFirst(u, us, b[0]);
      var filled := Filled(us, b[0]);
      assert [u] + filled + tail == [u] + (filled + tail);
    } else {
      assert [u] + us + all == [u] + (us + all);
    }
  }

  lemma {:induction false} Regrouped<T>(a: seq<T>, b: seq<T>, c: seq<T>)
    ensures a + b + c == a + (b + c)
  {
  }

  lemma {:induction false} FirstSplits<A>(a: seq<string>, u: Unit<A>, rest: seq<string>, g: Grammar<A>)
    requires a != [] && u == FirstUnit(a, g) && rest == a[|u.Tokens()|..]
    ensures a == u.Tokens() + rest && Units(a, g) == [u] + Units(rest, g) && OfItsArm(u, g)
    ensures g.wantsValue(u.arm) && u.value.None? ==> a == [u.flag] && rest == []
  {
  }

  lemma {:induction false} JoinBehind<A>(u: Unit<A>, rest: seq<string>, b: seq<string>, g: Grammar<A>)
    requires b != [] && OfItsArm(u, g) && !(g.wantsValue(u.arm) && u.value.None?)
    requires Units(rest + b, g) == Continued(Units(rest, g), b, g)
    ensures Units(u.Tokens() + rest + b, g) == Continued([u] + Units(rest, g), b, g)
  {
    Regrouped(u.Tokens(), rest, b);
    FirstAgain(u, rest + b, g);
    JoinFirst(u, Units(rest, g), b, g);
  }

  /** A line that continues keeps its units, unless its last flag was waiting
      for a value: that flag then takes the next argument. */
  lemma {:induction false} UnitsJoin<A>(a: seq<string>, b: seq<string>, g: Grammar<A>)
    requires b != []
    ensures Units(a + b, g) == Continued(Units(a, g), b, g)
    decreases |a|
  {
    if a == [] {
      assert a + b == b;
    } else {
      var u := FirstUnit(a, g);
      var rest := a[|u.Tokens()|..];
      FirstSplits(a, u, rest, g);
      if g.wantsValue(u.arm) && u.value.None? {
        assert [u] + [] == [u];
        OneDangles(u, b, g);
      } else {
        UnitsJoin(rest, b, g);
        JoinBehind(u, rest, b, g);
      }
    }
  }

  /** Units written before a line. */
  lemma {:induction false} TwoBefore<A>(u: Unit<A>, v: Unit<A>, later: seq<string>, g: Grammar<A>)
    requires OfItsArm(u, g) && OfItsArm(v, g)
    requires (g.wantsValue(u.arm) ==> u.value.Some?) && (g.wantsValue(v.arm) ==> v.value.Some?)
    ensures Units(u.Tokens() + v.Tokens() + later, g) == [u] + [v] + Units(later, g)
  {
    FirstAgain(v, later, g);
    FirstAgain(u, v.Tokens() + later, g);
    Regrouped(u.Tokens(), v.Tokens(), later);
    Regrouped([u], [v], Units(later, g));
  }

  lemma {:induction false} ThreeBefore<A>(u: Unit<A>, v: Unit<A>, x: Unit<A>, later: seq<string>, g: Grammar<A>)
    requires OfItsArm(u, g) && OfItsArm(v, g) && OfItsArm(x, g)
    requires (g.wantsValue(u.arm) ==> u.value.Some?) && (g.wantsValue(v.arm) ==> v.value.Some?)
    requires g.wantsValue(x.arm) ==> x.value.Some?
    ensures Units(u.Tokens() + v.Tokens() + x.Tokens() + later, g) == [u] + [v] + [x] + Units(later, g)
  {
    FirstAgain(x, later, g);
    TwoBefore(u, v, x.Tokens() + later, g);
    Regrouped(u.Tokens() + v.Tokens(), x.Tokens(), later);
    Regrouped([u] + [v], [x], Units(later, g));
  }

  /** Only when the last unit of a line is in the bucket can the bucket end in a
      flag without its value. */
  lemma {:induction false} OnlyDangles<A>(us: seq<Unit<A>>, g: Grammar<A>, bucket: A -> bool)
    requires Complete(us, g)
    ensures Dangling(Only(us, bucket), g) <==> Dangling(us, g) && bucket(us[|us| - 1].arm)
    decreases |us|
  {
    if us != [] {
      var rest := us[1..];
      forall i | 0 <= i < |rest| - 1 && g.wantsValue(rest[i].arm) ensures rest[i].value.Some? {
        assert us[i + 1] == rest[i];
      }
      OnlyDangles(rest, g, bucket);
      if rest == [] {
        assert Only(rest, bucket) == [];
      } else if bucket(us[0].arm) {
        assert g.wantsValue(us[0].arm) ==> us[0].value.Some?;
        assert Only(us, bucket) == [us[0]] + Only(rest, bucket);
      } else {
        assert Only(us, bucket) == Only(rest, bucket);
      }
    }
  }

  // ----- One more unit among others -----

  lemma {:induction false} InsertedBucket<A>(a: seq<Unit<A>>, u: Unit<A>, b: seq<Unit<A>>, bucket: A -> bool)
    ensures Bucket(a + [u] + b, bucket) == Bucket(a, bucket) + Picked(u, bucket) + Bucket(b, bucket)
    ensures Bucket(a + b, bucket) == Bucket(a, bucket) + Bucket(b, bucket)
  {
    BucketConcat(a + [u], b, bucket);
    BucketMore(a, u, bucket);
    BucketConcat(a, b, bucket);
  }

  lemma {:induction false} InsertedHas<A>(a: seq<Unit<A>>, u: Unit<A>, b: seq<Unit<A>>, arm: A)
    ensures Has(a + [u] + b, arm) <==> Has(a + b, arm) || u.arm == arm
  {
    HasConcat(a + [u], b, arm);
    HasMore(a, u, arm);
    HasConcat(a, b, arm);
  }

  lemma {:induction false} InsertedLast<A>(a: seq<Unit<A>>, u: Unit<A>, b: seq<Unit<A>>, arm: A)
    ensures u.arm != arm ==> Last(a + [u] + b, arm) == Last(a + b, arm)
    ensures u.arm == arm && Last(b, arm) == None ==> Last(a + [u] + b, arm) == Some(u)
  {
    LastConcat(a + [u], b, arm);
    LastMore(a, u, arm);
    LastConcat(a, b, arm);
  }

  // ----- Rebuilt lines -----

  function Picked<A>(u: Unit<A>, bucket: A -> bool): seq<string> { if bucket(u.arm) then u.Tokens() else [] }

  /** Two units, some others, and one at the end. */
  lemma {:induction false} AroundBucket<A>(c: Unit<A>, o: Unit<A>, cs: seq<Unit<A>>, i: Unit<A>, bucket: A -> bool)
    ensures Bucket([c] + [o] + cs + [i], bucket)
         == Picked(c, bucket) + Picked(o, bucket) + Bucket(cs, bucket) + Picked(i, bucket)
  {
    BucketMore([c] + [o] + cs, i, bucket);
    BucketConcat([c] + [o], cs, bucket);
    BucketMore([c], o, bucket);
    BucketOne(c, bucket);
  }

  /** With neither of the first two in the bucket. */
  lemma {:induction false} LaterBucket<A>(c: Unit<A>, o: Unit<A>, cs: seq<Unit<A>>, i: Unit<A>, bucket: A -> bool)
    requires !bucket(c.arm) && !bucket(o.arm)
    ensures Bucket([c] + [o] + cs + [i], bucket) == Bucket(cs, bucket) + Picked(i, bucket)
  {
    AroundBucket(c, o, cs, i, bucket);
  }

  lemma {:induction false} AroundHas<A>(c: Unit<A>, o: Unit<A>, cs: seq<Unit<A>>, i: Unit<A>, arm: A)
    ensures Has([c] + [o] + cs + [i], arm) <==> arm in {c.arm, o.arm, i.arm} || Has(cs, arm)
  {
    HasMore([c] + [o] + cs, i, arm);
    HasConcat([c] + [o], cs, arm);
    HasMore([c], o, arm);
    assert Has([c], arm) <==> [c][0].arm == arm;
  }

  lemma {:induction false} AroundLast<A>(c: Unit<A>, o: Unit<A>, cs: seq<Unit<A>>, i: Unit<A>, arm: A)
    requires i.arm != arm
    ensures Last([c] + [o] + cs + [i], arm)
         == if Last(cs, arm).Some? then Last(cs, arm)
            else if o.arm == arm then Some(o) else if c.arm == arm then Some(c) else None
  {
    LastMore([c] + [o] + cs, i, arm);
    LastConcat([c] + [o], cs, arm);
    LastMore([c], o, arm);
    LastOne(c, arm);
  }

  /** Three units and some others. */
  lemma {:induction false} BehindBucket<A>(c: Unit<A>, i: Unit<A>, o: Unit<A>, cs: seq<Unit<A>>, bucket: A -> bool)
    ensures Bucket([c] + [i] + [o] + cs, bucket)
         == Picked(c, bucket) + Picked(i, bucket) + Picked(o, bucket) + Bucket(cs, bucket)
  {
    BucketConcat([c] + [i] + [o], cs, bucket);
    BucketMore([c] + [i], o, bucket);
    BucketMore([c], i, bucket);
    BucketOne(c, bucket);
  }

  /** With only the middle one of the three in the bucket. */
  lemma {:induction false} MiddleBucket<A>(c: Unit<A>, i: Unit<A>, o: Unit<A>, cs: seq<Unit<A>>, bucket: A -> bool)
    requires !bucket(c.arm) && !bucket(o.arm)
    ensures Bucket([c] + [i] + [o] + cs, bucket) == Picked(i, bucket) + Bucket(cs, bucket)
  {
    BehindBucket(c, i, o, cs, bucket);
  }

  /** A filled flag makes its bucket longer. */
  lemma {:induction false} FilledLonger<A>(front: seq<Unit<A>>, cs: seq<Unit<A>>, value: string, bucket: A -> bool)
    requires cs != [] && cs[|cs| - 1].value.None? && bucket(cs[|cs| - 1].arm)
    ensures |Bucket(front + Filled(cs, value), bucket)| > |Bucket(cs, bucket)|
  {
    var before, last := cs[..|cs| - 1], cs[|cs| - 1];
    assert cs == before + [last];
    BucketMore(before, last, bucket);
    BucketMore(before, last.(value := Some(value)), bucket);
    BucketConcat(front, Filled(cs, value), bucket);
  }
}
