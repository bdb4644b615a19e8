/** The argument loop of GCC and Clang, over the lazy iterator. */
module GccParser {
  import opened CompilerArguments
  import opened Options
  import Paths
  import opened ResponseFiles
  import opened ArgumentUnits
  import opened GccArguments

  /** The mutable variables of the loop. */
  datatype Seen = Seen(
    output: Option<string>,
    input: Option<string>,
    target: Option<string>,
    common: seq<string>,
    preprocessor: seq<string>,
    compilation: bool,
    splitDwarf: bool,
    needTarget: bool)

  const NOTHING := Seen(None, None, None, [], [], false, false, false)

  ghost predicate TracksBuckets(seen: Seen, us: seq<Unit<Arm>>) {
    && Inputs(us) == (if seen.input.Some? then [seen.input.value] else [])
    && seen.common == Bucket(us, IsCommon)
    && seen.preprocessor == Bucket(us, IsPreprocessor)
  }

  ghost predicate TracksValues(seen: Seen, us: seq<Unit<Arm>>) {
    && seen.output == LastValue(us, OutputArm)
    && seen.target == LastValue(us, DepTargetArm)
  }

  ghost predicate TracksFlags(seen: Seen, us: seq<Unit<Arm>>) {
    && (seen.compilation <==> Has(us, CompileArm))
    && (seen.splitDwarf <==> Has(us, SplitDwarfArm))
    && (seen.needTarget <==> Has(us, DepModeArm))
  }

  /** The variables hold what the units so far amount to. */
  ghost predicate Tracks(seen: Seen, us: seq<Unit<Arm>>) {
    !Refused(us) && TracksBuckets(seen, us) && TracksValues(seen, us) && TracksFlags(seen, us)
  }

  /** What one unit does to the variables. */
  function See(seen: Seen, u: Unit<Arm>): Seen {
    match u.arm
    case CompileArm => seen.(compilation := true)
    case OutputArm => seen.(output := u.value)
    case SplitDwarfArm => seen.(splitDwarf := true, common := seen.common + u.Tokens())
    case ValueArm => seen.(common := seen.common + u.Tokens())
    case DepFileArm => seen.(preprocessor := seen.preprocessor + u.Tokens())
    case DepTargetArm => seen.(target := u.value)
    case RefusedArm => seen
    case DepModeArm => seen.(needTarget := true, preprocessor := seen.preprocessor + u.Tokens())
    case OptionArm => seen.(common := seen.common + u.Tokens())
    case InputArm => seen.(input := Some(u.flag))
  }

  predicate StopsAt(seen: Seen, u: Unit<Arm>) {
    u.arm.RefusedArm? || (u.arm.InputArm? && (seen.input.Some? || u.flag == "-"))
  }

  lemma {:induction false} SeeAdds(seen: Seen, u: Unit<Arm>)
    ensures See(seen, u).input == if u.arm.InputArm? then Some(u.flag) else seen.input
    ensures See(seen, u).common == seen.common + if IsCommon(u.arm) then u.Tokens() else []
    ensures See(seen, u).preprocessor == seen.preprocessor + if IsPreprocessor(u.arm) then u.Tokens() else []
  {
  }

  lemma {:induction false} SeeBuckets(seen: Seen, us: seq<Unit<Arm>>, u: Unit<Arm>)
    requires TracksBuckets(seen, us) && !StopsAt(seen, u) && (u.arm.InputArm? ==> u.value.None?)
    ensures TracksBuckets(See(seen, u), us + [u])
  {
    InputsMore(us, u);
    SeeAdds(seen, u);
    SeeKept(seen, us, u);
  }

  lemma {:induction false} InputsMore(us: seq<Unit<Arm>>, u: Unit<Arm>)
    requires u.arm.InputArm? ==> u.value.None?
    ensures Inputs(us + [u]) == Inputs(us) + if u.arm.InputArm? then [u.flag] else []
  {
    BucketMore(us, u, IsInput);
  }

  lemma {:induction false} SeeKept(seen: Seen, us: seq<Unit<Arm>>, u: Unit<Arm>)
    requires seen.common == Bucket(us, IsCommon) && seen.preprocessor == Bucket(us, IsPreprocessor)
    ensures See(seen, u).common == Bucket(us + [u], IsCommon)
    ensures See(seen, u).preprocessor == Bucket(us + [u], IsPreprocessor)
  {
    SeeAdds(seen, u);
    BucketMore(us, u, IsCommon);
    BucketMore(us, u, IsPreprocessor);
  }

  lemma {:induction false} SeeValues(seen: Seen, us: seq<Unit<Arm>>, u: Unit<Arm>)
    requires TracksValues(seen, us)
    ensures TracksValues(See(seen, u), us + [u])
  {
    LastMore(us, u, OutputArm);
    LastMore(us, u, DepTargetArm);
  }

  lemma {:induction false} SeeFlags(seen: Seen, us: seq<Unit<Arm>>, u: Unit<Arm>)
    requires TracksFlags(seen, us)
    ensures TracksFlags(See(seen, u), us + [u])
  {
    HasMore(us, u, CompileArm);
    HasMore(us, u, SplitDwarfArm);
    HasMore(us, u, DepModeArm);
  }

  /** The loop goes on just when nothing so far is refused. */
  lemma {:induction false} SeeTracks(seen: Seen, us: seq<Unit<Arm>>, u: Unit<Arm>)
    requires Tracks(seen, us) && (u.arm.InputArm? ==> u.value.None?)
    ensures StopsAt(seen, u) <==> Refused(us + [u])
    ensures !StopsAt(seen, u) ==> Tracks(See(seen, u), us + [u])
  {
    HasMore(us, u, RefusedArm);
    BucketMore(us, u, IsInput);
    if !StopsAt(seen, u) { SeeBuckets(seen, us, u); }
    SeeValues(seen, us, u);
    SeeFlags(seen, us, u);
  }

  lemma {:induction false} StaysRefused(us: seq<Unit<Arm>>, later: seq<Unit<Arm>>)
    requires Refused(us)
    ensures Classify(us + later) == CannotCache
  {
    HasConcat(us, later, RefusedArm);
    BucketConcat(us, later, IsInput);
  }

  /** What the code after the loop makes of the variables. */
  function Conclude(seen: Seen): Parsed {
    if !seen.compilation then NotCompilation
    else if seen.input.None? then CannotCache
    else
      var extension := Paths.Extension(seen.input.value);
      if extension.None? || !KnownExtension(extension.value) then CannotCache
      else if seen.output.None? then CannotCache
      else
        var obj := seen.output.value;
        Accepted(ParsedArguments(
          seen.input.value, extension.value, None, Outputs(obj, seen.splitDwarf),
          seen.preprocessor + (if seen.needTarget
                               then ["-MT", if seen.target.Some? then seen.target.value else obj] else []),
          seen.common))
  }

  lemma {:induction false} ConcludeClassifies(seen: Seen, us: seq<Unit<Arm>>)
    requires Tracks(seen, us)
    ensures Conclude(seen) == Classify(us)
  {
  }

  /** The next argument and, when its arm calls for one, its value. */
  method NextUnit(it: ExpandIncludeFile, takesValue: string -> bool, ghost ranks: Ranks) returns (u: Option<Unit<Arm>>)
    requires Acyclic(it.files, ranks)
    modifies it
    ensures u.None? ==> old(it.Rest(ranks)) == [] && it.Rest(ranks) == []
    ensures u.Some? ==> old(it.Rest(ranks)) == u.value.Tokens() + it.Rest(ranks)
                        && u.value == FirstUnit(old(it.Rest(ranks)), GrammarOf(takesValue))
                        && (u.value.arm.InputArm? ==> u.value.value.None?)
  {
    ghost var tokens := it.Rest(ranks);
    var next := it.Next(ranks);
    if next.None? { return None; }
    ghost var rest := it.Rest(ranks);
    var arm := ArmOf(next.value, takesValue);
    var value := None;
    if WantsValue(arm) { value := it.Next(ranks); }
    u := Some(Unit(arm, next.value, value));
    FirstUnitIs(tokens, next.value, rest, value, it.Rest(ranks), takesValue);
  }

  lemma {:induction false} FirstUnitIs(tokens: seq<string>, flag: string, rest: seq<string>,
                                       value: Option<string>, later: seq<string>, takesValue: string -> bool)
    requires tokens == [flag] + rest && rest == (if value.Some? then [value.value] else []) + later
    requires if WantsValue(ArmOf(flag, takesValue)) then value.None? ==> later == [] else value.None?
    ensures
      var u := Unit(ArmOf(flag, takesValue), flag, value);
      tokens == u.Tokens() + later && u == FirstUnit(tokens, GrammarOf(takesValue))
  {
  }

  lemma {:induction false} Regroup(us: seq<Unit<Arm>>, u: Unit<Arm>, tokens: seq<string>, rest: seq<string>,
                                   takesValue: string -> bool)
    requires tokens == u.Tokens() + rest && u == FirstUnit(tokens, GrammarOf(takesValue))
    ensures us + Units(tokens, GrammarOf(takesValue)) == (us + [u]) + Units(rest, GrammarOf(takesValue))
  {
    assert tokens[|u.Tokens()|..] == rest;
    assert us + ([u] + Units(rest, GrammarOf(takesValue))) == us + [u] + Units(rest, GrammarOf(takesValue));
  }

  /** `_parse_arguments`: one pass over the lazily expanded arguments, stopping
      at the first that cannot be cached. */
  method ParseArguments(arguments: seq<string>, files: Files, takesValue: string -> bool, ghost ranks: Ranks)
    returns (parsed: Parsed)
    requires Acyclic(files, ranks)
    ensures parsed == Parse(Expand(files, ranks, arguments), takesValue)
  {
    var it := new ExpandIncludeFile(files, arguments);
    ghost var all := Units(it.Rest(ranks), GrammarOf(takesValue));
    ghost var us: seq<Unit<Arm>> := [];
    var seen := NOTHING;
    while true
      invariant it.files == files && fresh(it)
      invariant all == us + Units(it.Rest(ranks), GrammarOf(takesValue))
      invariant Tracks(seen, us)
      decreases |it.Rest(ranks)|
    {
      ghost var before := it.Rest(ranks);
      var next := NextUnit(it, takesValue, ranks);
      if next.None? { break; }
      var u := next.value;
      Regroup(us, u, before, it.Rest(ranks), takesValue);
      SeeTracks(seen, us, u);
      if StopsAt(seen, u) {
        StaysRefused(us + [u], Units(it.Rest(ranks), GrammarOf(takesValue)));
        return CannotCache;
      }
      seen := See(seen, u);
      us := us + [u];
    }
    assert us + [] == us;
    ConcludeClassifies(seen, us);
    parsed := Conclude(seen);
  }

  method ParseGcc(arguments: seq<string>, files: Files, ghost ranks: Ranks) returns (parsed: Parsed)
    requires Acyclic(files, ranks)
    ensures parsed == Parse(Expand(files, ranks, arguments), GccTakesValue)
  {
    parsed := ParseArguments(arguments, files, GccTakesValue, ranks);
  }

  method ParseClang(arguments: seq<string>, files: Files, ghost ranks: Ranks) returns (parsed: Parsed)
    requires Acyclic(files, ranks)
    ensures parsed == Parse(Expand(files, ranks, arguments), ClangTakesValue)
  {
    parsed := ParseArguments(arguments, files, ClangTakesValue, ranks);
  }
}
