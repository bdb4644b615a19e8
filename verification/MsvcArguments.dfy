/** Command lines of Microsoft Visual C++. */
module MsvcArguments {
  import opened CompilerArguments
  import opened Options
  import Paths
  import opened ArgumentUnits

  predicate StartsWith(s: string, prefix: string) { prefix <= s }

  /** The arms of the parser's `match`, in order. */
  datatype Arm =
    | CompileArm
    | OutputArm
    | ForcedIncludeArm
    | DepsArm
    | RefusedArm
    | DebugArm
    | PdbArm
    | OptionArm
    | InputArm

  const MULTI_FILE_OUTPUTS: seq<string> := ["-FA", "-Fa", "-Fe", "-Fm", "-Fp", "-FR", "-Fx"]

  function ArmOf(arg: string): Arm {
    if arg == "-c" then CompileArm
    else if StartsWith(arg, "-Fo") then OutputArm
    else if arg == "-FI" then ForcedIncludeArm
    else if StartsWith(arg, "-deps") then DepsArm
    else if arg == "-showIncludes" then RefusedArm
    else if |arg| > 0 && arg[0] == '@' then RefusedArm
    else if arg in MULTI_FILE_OUTPUTS then RefusedArm
    else if arg == "-Zi" then DebugArm
    else if StartsWith(arg, "-Fd") then PdbArm
    else if |arg| > 1 && arg[0] == '-' then OptionArm
    else InputArm
  }

  predicate WantsValue(arm: Arm) { arm.ForcedIncludeArm? }

  const Grammars: Grammar<Arm> := Grammar(arg => ArmOf(arg), arm => WantsValue(arm))

  predicate IsCommon(arm: Arm) {
    arm.ForcedIncludeArm? || arm.DebugArm? || arm.PdbArm? || arm.OptionArm?
  }

  predicate IsInput(arm: Arm) { arm.InputArm? }

  function Inputs(us: seq<Unit<Arm>>): seq<string> { Bucket(us, IsInput) }

  /** What is joined to the last flag of an arm, after its `skip` characters. */
  function Joined(us: seq<Unit<Arm>>, arm: Arm, skip: nat): Option<string> {
    var last := Last(us, arm);
    if last.Some? then Some(if |last.value.flag| >= skip then last.value.flag[skip..] else "") else None
  }

  predicate Refused(us: seq<Unit<Arm>>) {
    Has(us, RefusedArm) || |Inputs(us)| > 1
  }

  /** With debug information the program database is an output too, and must be
      named. */
  function Outputs(obj: string, debug: bool, pdb: Option<string>): Option<map<string, string>> {
    if !debug then Some(map[OBJ := obj])
    else if pdb.None? then None
    else Some(map[OBJ := obj, PDB := pdb.value])
  }

  function Classify(us: seq<Unit<Arm>>): Parsed {
    if Refused(us) then CannotCache
    else if !Has(us, CompileArm) then NotCompilation
    else if Inputs(us) == [] then CannotCache
    else
      var input := Inputs(us)[0];
      var extension := Paths.Extension(input);
      var obj := Joined(us, OutputArm, 3);
      if extension.None? || obj.None? then CannotCache
      else
        match Outputs(obj.value, Has(us, DebugArm), Joined(us, PdbArm, 3))
        case None => CannotCache
        case Some(outputs) =>
          Accepted(ParsedArguments(input, extension.value, Joined(us, DepsArm, 5), outputs, [], Bucket(us, IsCommon)))
  }

  function Parse(tokens: seq<string>): Parsed {
    Classify(Units(tokens, Grammars))
  }

  // ----- Print then parse -----

  /** The command line that `compile` rebuilds from a parsed one. */
  function Rebuilt(args: ParsedArguments): seq<string>
    requires OBJ in args.outputs
  {
    ["-c", args.input, "-Fo" + args.outputs[OBJ]] + args.commonArgs
  }

  function FrontUnits(input: string, obj: string): seq<Unit<Arm>> {
    [Unit(CompileArm, "-c", None), Unit(InputArm, input, None), Unit(OutputArm, "-Fo" + obj, None)]
  }

  lemma {:induction false} ObjectFlag(obj: string)
    ensures ArmOf("-Fo" + obj) == OutputArm
  {
    assert ("-Fo" + obj)[..3] == "-Fo" && ("-Fo" + obj)[1] == 'F';
  }

  lemma {:induction false} RebuiltUnitsAre(input: string, obj: string, common: seq<string>)
    requires ArmOf(input) == InputArm
    ensures Units(["-c", input, "-Fo" + obj] + common, Grammars) == FrontUnits(input, obj) + Units(common, Grammars)
  {
    var c, i, o := Unit(CompileArm, "-c", None), Unit(InputArm, input, None), Unit(OutputArm, "-Fo" + obj, None);
    ObjectFlag(obj);
    ThreeBefore(c, i, o, common, Grammars);
    assert c.Tokens() + i.Tokens() + o.Tokens() == ["-c", input, "-Fo" + obj];
    assert [c] + [i] + [o] == FrontUnits(input, obj);
  }

  lemma {:induction false} FrontLast(input: string, obj: string, arm: Arm)
    ensures Has(FrontUnits(input, obj), arm) <==> arm in {CompileArm, InputArm, OutputArm}
    ensures arm == OutputArm ==> Last(FrontUnits(input, obj), arm) == Some(Unit(OutputArm, "-Fo" + obj, None))
    ensures arm !in {CompileArm, InputArm, OutputArm} ==> Last(FrontUnits(input, obj), arm) == None
  {
    var front := FrontUnits(input, obj);
    assert front == [front[0]] + [front[1]] + [front[2]];
    HasConcat([front[0]] + [front[1]], [front[2]], arm);
    HasConcat([front[0]], [front[1]], arm);
    LastConcat([front[0]] + [front[1]], [front[2]], arm);
    LastConcat([front[0]], [front[1]], arm);
    LastOne(front[0], arm);
    LastOne(front[1], arm);
    LastOne(front[2], arm);
  }

  lemma {:induction false} RebuiltBuckets(input: string, obj: string, cs: seq<Unit<Arm>>)
    requires forall u :: u in cs ==> IsCommon(u.arm)
    ensures
      var us := FrontUnits(input, obj) + cs;
      Inputs(us) == [input] && Bucket(us, IsCommon) == Bucket(cs, IsCommon)
  {
    NoneOf(cs, IsCommon, IsInput, InputArm);
    var c, i, o := Unit(CompileArm, "-c", None), Unit(InputArm, input, None), Unit(OutputArm, "-Fo" + obj, None);
    assert FrontUnits(input, obj) == [c] + [i] + [o];
    MiddleBucket(c, i, o, cs, IsInput);
    MiddleBucket(c, i, o, cs, IsCommon);
  }

  lemma {:induction false} RebuiltArms(input: string, obj: string, cs: seq<Unit<Arm>>)
    requires forall u :: u in cs ==> IsCommon(u.arm)
    ensures
      var us := FrontUnits(input, obj) + cs;
      && Has(us, CompileArm) && !Has(us, RefusedArm)
      && (Has(us, DebugArm) <==> Has(cs, DebugArm))
      && Last(us, OutputArm) == Some(Unit(OutputArm, "-Fo" + obj, None))
      && Last(us, PdbArm) == Last(cs, PdbArm)
      && Last(us, DepsArm) == None
  {
    var front := FrontUnits(input, obj);
    NoneOf(cs, IsCommon, IsInput, RefusedArm);
    NoneOf(cs, IsCommon, IsInput, OutputArm);
    NoneOf(cs, IsCommon, IsInput, DepsArm);
    forall arm: Arm ensures Has(front + cs, arm) <==> Has(front, arm) || Has(cs, arm) { HasConcat(front, cs, arm); }
    forall arm: Arm ensures Has(front, arm) <==> arm in {CompileArm, InputArm, OutputArm} {
      FrontLast(input, obj, arm);
    }
    FrontLast(input, obj, OutputArm);
    FrontLast(input, obj, PdbArm);
    FrontLast(input, obj, DepsArm);
    LastConcat(front, cs, OutputArm);
    LastConcat(front, cs, PdbArm);
    LastConcat(front, cs, DepsArm);
  }

  ghost predicate Rebuildable(args: ParsedArguments, tokens: seq<string>) {
    var us := Units(tokens, Grammars);
    && OBJ in args.outputs
    && ArmOf(args.input) == InputArm
    && Paths.Extension(args.input) == Some(args.extension)
    && Some(args.outputs) == Outputs(args.outputs[OBJ], Has(us, DebugArm), Joined(us, PdbArm, 3))
    && args.commonArgs == Bucket(us, IsCommon) && args.preprocessorArgs == []
  }

  lemma {:induction false} AcceptedRebuildable(tokens: seq<string>)
    requires Parse(tokens).Accepted?
    ensures Rebuildable(Parse(tokens).args, tokens)
  {
    var us := Units(tokens, Grammars);
    ValuesKept(tokens, Grammars);
    var args := Parse(tokens).args;
    assert args.input in Inputs(us);
    var i := BucketSource(us, IsInput, args.input);
    assert OfItsArm(us[i], Grammars);
  }

  lemma {:induction false} RebuiltClassifies(input: string, obj: string, cs: seq<Unit<Arm>>)
    requires forall u :: u in cs ==> IsCommon(u.arm)
    requires Paths.Extension(input).Some? && Outputs(obj, Has(cs, DebugArm), Joined(cs, PdbArm, 3)).Some?
    ensures Classify(FrontUnits(input, obj) + cs)
         == Accepted(ParsedArguments(input, Paths.Extension(input).value, None,
                                     Outputs(obj, Has(cs, DebugArm), Joined(cs, PdbArm, 3)).value,
                                     [], Bucket(cs, IsCommon)))
  {
    RebuiltBuckets(input, obj, cs);
    RebuiltArms(input, obj, cs);
    assert ("-Fo" + obj)[3..] == obj;
  }

  lemma {:induction false} RebuiltParses(args: ParsedArguments, tokens: seq<string>)
    requires Rebuildable(args, tokens)
    ensures Parse(Rebuilt(args)) == Accepted(args.(depfile := None))
  {
    var us := Units(tokens, Grammars);
    var cs := Only(us, IsCommon);
    var obj := args.outputs[OBJ];
    BucketAgain(tokens, Grammars, IsCommon);
    OnlyKeeps(us, IsCommon);
    OnlyKeepsArm(us, IsCommon, DebugArm);
    OnlyKeepsArm(us, IsCommon, PdbArm);
    RebuiltUnitsAre(args.input, obj, args.commonArgs);
    assert Units(Rebuilt(args), Grammars) == FrontUnits(args.input, obj) + cs;
    RebuiltClassifies(args.input, obj, cs);
  }

  /** Print then parse: the line rebuilt from an accepted one is accepted with
      the same input, extension, outputs and common arguments, and asks for no
      dependency file. */
  lemma {:induction false} PrintThenParse(tokens: seq<string>)
    requires Parse(tokens).Accepted?
    ensures
      var args := Parse(tokens).args;
      Parse(Rebuilt(args)) == Accepted(args.(depfile := None))
  {
    AcceptedRebuildable(tokens);
    RebuiltParses(Parse(tokens).args, tokens);
  }

  /** The tokens are those of the units, in order; the common arguments, the
      input and the flags of the object, the program database and the
      dependency file come from units of their arms. */
  lemma {:induction false} TokenConservation(tokens: seq<string>)
    requires Parse(tokens).Accepted?
    ensures
      var args := Parse(tokens).args;
      var us := Units(tokens, Grammars);
      && Flatten(us) == tokens && Complete(us, Grammars)
      && args.commonArgs == Bucket(us, IsCommon)
      && Inputs(us) == [args.input]
      && (forall u :: u in us ==> IsCommon(u.arm) || u.arm in {InputArm, CompileArm, OutputArm, DepsArm})
      && ("-Fo" + args.outputs[OBJ]) in tokens
      && (args.depfile.Some? ==> ("-deps" + args.depfile.value) in tokens)
      && (PDB in args.outputs <==> Has(us, DebugArm))
      && (PDB in args.outputs ==> ("-Fd" + args.outputs[PDB]) in args.commonArgs)
      && OutputNames(args.outputs.Keys)
  {
    var us := Units(tokens, Grammars);
    UnitsConserve(tokens, Grammars);
    ValuesKept(tokens, Grammars);
    ArmsAccepted(us);
    JoinedSource(us, OutputArm, "-Fo");
    JoinedSource(us, DepsArm, "-deps");
    JoinedCommon(us, PdbArm, "-Fd");
  }

  lemma {:induction false} ArmsAccepted(us: seq<Unit<Arm>>)
    requires !Refused(us) && Inputs(us) != []
    ensures Inputs(us) == [Inputs(us)[0]]
    ensures forall u :: u in us ==> IsCommon(u.arm) || u.arm in {InputArm, CompileArm, OutputArm, DepsArm}
  {
    assert Inputs(us)[1..] == [];
    forall u | u in us ensures IsCommon(u.arm) || u.arm in {InputArm, CompileArm, OutputArm, DepsArm} {
      var i :| 0 <= i < |us| && us[i] == u;
      assert us[i].arm != RefusedArm;
    }
  }

  /** The flag of a common arm is among the common arguments. */
  lemma {:induction false} JoinedCommon(us: seq<Unit<Arm>>, arm: Arm, prefix: string)
    requires forall u :: u in us ==> OfItsArm(u, Grammars)
    requires arm == PdbArm && prefix == "-Fd"
    ensures Joined(us, arm, 3).Some? ==> (prefix + Joined(us, arm, 3).value) in Bucket(us, IsCommon)
  {
    LastSource(us, arm);
    if Last(us, arm).Some? {
      var u := Last(us, arm).value;
      assert prefix <= u.flag && prefix + u.flag[3..] == u.flag;
      BucketHolds(us, u, IsCommon);
    }
  }

  /** A joined value is what follows the prefix in one of the tokens. */
  lemma {:induction false} JoinedSource(us: seq<Unit<Arm>>, arm: Arm, prefix: string)
    requires forall u :: u in us ==> OfItsArm(u, Grammars)
    requires (arm == OutputArm && prefix == "-Fo") || (arm == DepsArm && prefix == "-deps")
    ensures
      var joined := Joined(us, arm, |prefix|);
      joined.Some? ==> (prefix + joined.value) in Flatten(us)
  {
    LastSource(us, arm);
    if Last(us, arm).Some? {
      var u := Last(us, arm).value;
      assert prefix <= u.flag;
      assert prefix + u.flag[|prefix|..] == u.flag;
      var i :| 0 <= i < |us| && us[i] == u;
      UnitWithin(us, i);
      assert u.Tokens()[0] == u.flag;
    }
  }
}
