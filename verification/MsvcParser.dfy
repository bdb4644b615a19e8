/** The argument loop of Microsoft Visual C++. */
module MsvcParser {
  import opened CompilerArguments
  import opened Options
  import Paths
  import opened ArgumentUnits
  import opened MsvcArguments

  /** The mutable variables of the loop. */
  datatype Seen = Seen(
    output: Option<string>,
    input: Option<string>,
    common: seq<string>,
    compilation: bool,
    debug: bool,
    pdb: Option<string>,
    depfile: Option<string>)

  const NOTHING := Seen(None, None, [], false, false, None, None)

  function After(flag: string, skip: nat): string {
    if |flag| >= skip then flag[skip..] else ""
  }

  /** What one unit does to the variables. */
  function See(seen: Seen, u: Unit<Arm>): Seen {
    match u.arm
    case CompileArm => seen.(compilation := true)
    case OutputArm => seen.(output := Some(After(u.flag, 3)))
    case ForcedIncludeArm => seen.(common := seen.common + u.Tokens())
    case DepsArm => seen.(depfile := Some(After(u.flag, 5)))
    case RefusedArm => seen
    case DebugArm => seen.(debug := true, common := seen.common + u.Tokens())
    case PdbArm => seen.(pdb := Some(After(u.flag, 3)), common := seen.common + u.Tokens())
    case OptionArm => seen.(common := seen.common + u.Tokens())
    case InputArm => seen.(input := Some(u.flag))
  }

  predicate StopsAt(seen: Seen, u: Unit<Arm>) {
    u.arm.RefusedArm? || (u.arm.InputArm? && seen.input.Some?)
  }

  ghost predicate TracksBuckets(seen: Seen, us: seq<Unit<Arm>>) {
    && Inputs(us) == (if seen.input.Some? then [seen.input.value] else [])
    && seen.common == Bucket(us, IsCommon)
  }

  ghost predicate TracksValues(seen: Seen, us: seq<Unit<Arm>>) {
    && seen.output == Joined(us, OutputArm, 3)
    && seen.pdb == Joined(us, PdbArm, 3)
    && seen.depfile == Joined(us, DepsArm, 5)
  }

  ghost predicate TracksFlags(seen: Seen, us: seq<Unit<Arm>>) {
    && (seen.compilation <==> Has(us, CompileArm))
    && (seen.debug <==> Has(us, DebugArm))
  }

  /** The variables hold what the units so far amount to. */
  ghost predicate Tracks(seen: Seen, us: seq<Unit<Arm>>) {
    !Refused(us) && TracksBuckets(seen, us) && TracksValues(seen, us) && TracksFlags(seen, us)
  }

  lemma {:induction false} SeeAdds(seen: Seen, u: Unit<Arm>)
    ensures See(seen, u).common == seen.common + if IsCommon(u.arm) then u.Tokens() else []
  {
  }

  lemma {:induction false} SeeBuckets(seen: Seen, us: seq<Unit<Arm>>, u: Unit<Arm>)
    requires TracksBuckets(seen, us) && (u.arm.InputArm? ==> u.value.None?)
    ensures !StopsAt(seen, u) ==> TracksBuckets(See(seen, u), us + [u])
  {
    SeeAdds(seen, u);
    BucketMore(us, u, IsInput);
    BucketMore(us, u, IsCommon);
  }

  lemma {:induction false} SeeValues(seen: Seen, us: seq<Unit<Arm>>, u: Unit<Arm>)
    requires TracksValues(seen, us)
    ensures TracksValues(See(seen, u), us + [u])
  {
    JoinedMore(us, u, OutputArm, 3);
    JoinedMore(us, u, PdbArm, 3);
    JoinedMore(us, u, DepsArm, 5);
  }

  lemma {:induction false} JoinedMore(us: seq<Unit<Arm>>, u: Unit<Arm>, arm: Arm, skip: nat)
    ensures Joined(us + [u], arm, skip) == if u.arm == arm then Some(After(u.flag, skip)) else Joined(us, arm, skip)
  {
    LastMore(us, u, arm);
  }

  lemma {:induction false} SeeFlags(seen: Seen, us: seq<Unit<Arm>>, u: Unit<Arm>)
    requires TracksFlags(seen, us)
    ensures TracksFlags(See(seen, u), us + [u])
  {
    HasMore(us, u, CompileArm);
    HasMore(us, u, DebugArm);
  }

  /** The loop goes on just when nothing so far is refused. */
  lemma {:induction false} SeeTracks(seen: Seen, us: seq<Unit<Arm>>, u: Unit<Arm>)
    requires Tracks(seen, us) && (u.arm.InputArm? ==> u.value.None?)
    ensures StopsAt(seen, u) <==> Refused(us + [u])
    ensures !StopsAt(seen, u) ==> Tracks(See(seen, u), us + [u])
  {
    HasMore(us, u, RefusedArm);
    BucketMore(us, u, IsInput);
    SeeBuckets(seen, us, u);
    SeeValues(seen, us, u);
    SeeFlags(seen, us, u);
  }

  lemma {:induction false} StaysRefused(us: seq<Unit<Arm>>, later: seq<Unit<Arm>>)
    requires Refused(us)
    ensures Classify(us + later) == CannotCache
  {
    HasConcat(us, later, RefusedArm);
    BucketConcat(us, later, IsInput);
  }

  /** What the code after the loop makes of the variables. */
  function Conclude(seen: Seen): Parsed {
    if !seen.compilation then NotCompilation
    else if seen.input.None? then CannotCache
    else
      var extension := Paths.Extension(seen.input.value);
      if extension.None? then CannotCache
      else if seen.output.None? then CannotCache
      else if seen.debug && seen.pdb.None? then CannotCache
      else
        var obj := map[OBJ := seen.output.value];
        Accepted(ParsedArguments(
          seen.input.value, extension.value, seen.depfile,
          if seen.debug then obj[PDB := seen.pdb.value] else obj, [], seen.common))
  }

  lemma {:induction false} ConcludeClassifies(seen: Seen, us: seq<Unit<Arm>>)
    requires Tracks(seen, us)
    ensures Conclude(seen) == Classify(us)
  {
  }

  lemma {:induction false} Regroup(us: seq<Unit<Arm>>, tokens: seq<string>, i: nat, u: Unit<Arm>)
    requires i < |tokens| && u == FirstUnit(tokens[i..], Grammars)
    ensures us + Units(tokens[i..], Grammars) == (us + [u]) + Units(tokens[i + |u.Tokens()|..], Grammars)
  {
    assert tokens[i..][|u.Tokens()|..] == tokens[i + |u.Tokens()|..];
    assert us + ([u] + Units(tokens[i + |u.Tokens()|..], Grammars))
        == us + [u] + Units(tokens[i + |u.Tokens()|..], Grammars);
  }

  /** `parse_arguments`: one pass, stopping at the first argument that cannot be
      handled. */
  method ParseArguments(arguments: seq<string>) returns (parsed: Parsed)
    ensures parsed == Parse(arguments)
  {
    ghost var us: seq<Unit<Arm>> := [];
    var seen := NOTHING;
    var i := 0;
    assert arguments[0..] == arguments;
    while i < |arguments|
      invariant i <= |arguments|
      invariant Units(arguments, Grammars) == us + Units(arguments[i..], Grammars)
      invariant Tracks(seen, us)
    {
      var u := FirstUnit(arguments[i..], Grammars);
      Regroup(us, arguments, i, u);
      SeeTracks(seen, us, u);
      i := i + |u.Tokens()|;
      if StopsAt(seen, u) {
        StaysRefused(us + [u], Units(arguments[i..], Grammars));
        return CannotCache;
      }
      seen := See(seen, u);
      us := us + [u];
    }
    assert us + [] == us;
    ConcludeClassifies(seen, us);
    parsed := Conclude(seen);
  }
}
