/** Command lines of GCC and Clang: tokens are grouped into units, a flag with
    its value, and the units sorted into what is compiled, what goes to the
    preprocessor and what goes to both. */
module GccArguments {
  import opened CompilerArguments
  import opened Options
  import Paths
  import opened ResponseFiles
  import opened ArgumentUnits

  const ARGS_WITH_VALUE: seq<string> := [
    "--param", "-A", "-D", "-F", "-G", "-I", "-L",
    "-U", "-V", "-Xassembler", "-Xlinker",
    "-Xpreprocessor", "-aux-info", "-b", "-idirafter",
    "-iframework", "-imacros", "-imultilib", "-include",
    "-install_name", "-iprefix", "-iquote", "-isysroot",
    "-isystem", "-iwithprefix", "-iwithprefixbefore",
    "-u"]

  const CLANG_ARGS_WITH_VALUE: seq<string> := ["-arch"]

  predicate GccTakesValue(arg: string) { arg in ARGS_WITH_VALUE }

  predicate ClangTakesValue(arg: string) { arg in ARGS_WITH_VALUE || arg in CLANG_ARGS_WITH_VALUE }

  /** What the arms of the parser's `match` make of an argument, in order. */
  datatype Arm =
    | CompileArm
    | OutputArm
    | SplitDwarfArm
    | ValueArm
    | DepFileArm
    | DepTargetArm
    | RefusedArm
    | DepModeArm
    | OptionArm
    | InputArm

  function ArmOf(arg: string, takesValue: string -> bool): Arm {
    if arg == "-c" then CompileArm
    else if arg == "-o" then OutputArm
    else if arg == "-gsplit-dwarf" then SplitDwarfArm
    else if takesValue(arg) then ValueArm
    else if arg == "-MF" || arg == "-MQ" then DepFileArm
    else if arg == "-MT" then DepTargetArm
    else if arg == "-fcxx-modules" || arg == "-fmodules" || arg == "-fprofile-use" then RefusedArm
    else if |arg| > 0 && arg[0] == '@' then RefusedArm
    else if arg == "-M" || arg == "-MM" || arg == "-MD" || arg == "-MMD" then DepModeArm
    else if |arg| > 1 && arg[0] == '-' then OptionArm
    else InputArm
  }

  predicate WantsValue(arm: Arm) {
    arm.OutputArm? || arm.ValueArm? || arm.DepFileArm? || arm.DepTargetArm?
  }

  function GrammarOf(takesValue: string -> bool): Grammar<Arm> {
    Grammar(arg => ArmOf(arg, takesValue), WantsValue)
  }

  // ----- The buckets -----

  predicate IsCommon(arm: Arm) { arm.SplitDwarfArm? || arm.ValueArm? || arm.OptionArm? }

  predicate IsPreprocessor(arm: Arm) { arm.DepFileArm? || arm.DepModeArm? }

  predicate IsInput(arm: Arm) { arm.InputArm? }

  function LastValue(us: seq<Unit<Arm>>, arm: Arm): Option<string> {
    var last := Last(us, arm);
    if last.Some? then last.value.value else None
  }

  function Inputs(us: seq<Unit<Arm>>): seq<string> { Bucket(us, IsInput) }

  /** Options that cannot be cached, a second input, or standard input. */
  predicate Refused(us: seq<Unit<Arm>>) {
    Has(us, RefusedArm) || |Inputs(us)| > 1 || "-" in Inputs(us)
  }

  function Outputs(obj: string, splitDwarf: bool): map<string, string> {
    if splitDwarf then map[OBJ := obj, DWO := Paths.WithExtension(obj, "dwo")] else map[OBJ := obj]
  }

  predicate KnownExtension(extension: string) {
    extension == "c" || extension == "cc" || extension == "cpp" || extension == "cxx"
  }

  /** What the units of a whole command line amount to. */
  function Classify(us: seq<Unit<Arm>>): Parsed {
    if Refused(us) then CannotCache
    else if !Has(us, CompileArm) then NotCompilation
    else if Inputs(us) == [] then CannotCache
    else
      var input := Inputs(us)[0];
      var extension := Paths.Extension(input);
      if extension.None? || !KnownExtension(extension.value) then CannotCache
      else
        match LastValue(us, OutputArm)
        case None => CannotCache
        case Some(obj) =>
          var target := LastValue(us, DepTargetArm);
          var explicitTarget := if Has(us, DepModeArm)
                                then ["-MT", if target.Some? then target.value else obj] else [];
          Accepted(ParsedArguments(
            input, extension.value, None, Outputs(obj, Has(us, SplitDwarfArm)),
            Bucket(us, IsPreprocessor) + explicitTarget,
            Bucket(us, IsCommon)))
  }

  function Parse(tokens: seq<string>, takesValue: string -> bool): Parsed {
    Classify(Units(tokens, GrammarOf(takesValue)))
  }

  // ----- Token conservation -----

  /** Only when dependencies are asked for, the target is given explicitly: the
      last one named, or else the object. */
  function TargetPair(us: seq<Unit<Arm>>, obj: string): seq<string> {
    if Has(us, DepModeArm) then
      ["-MT", if LastValue(us, DepTargetArm).Some? then LastValue(us, DepTargetArm).value else obj]
    else []
  }

  /** For every accepted command line the tokens are, in order, those of some
      units, each one token or a flag with its value, of which the common ones
      make up `common_args`, the preprocessor ones `preprocessor_args` up to the
      appended `-MT` pair, one is the input, and the others are `-c`, `-o` and
      `-MT` units; the last `-o` names the object. */
  lemma {:induction false} TokenConservation(tokens: seq<string>, takesValue: string -> bool)
    requires Parse(tokens, takesValue).Accepted?
    ensures
      var args := Parse(tokens, takesValue).args;
      var g := GrammarOf(takesValue);
      var us := Units(tokens, g);
      && Flatten(us) == tokens
      && (forall u :: u in us ==> OfItsArm(u, g))
      && Complete(us, g)
      && args.commonArgs == Bucket(us, IsCommon)
      && Inputs(us) == [args.input]
      && args.preprocessorArgs == Bucket(us, IsPreprocessor) + TargetPair(us, args.outputs[OBJ])
      && (forall u :: u in us ==>
            IsCommon(u.arm) || IsPreprocessor(u.arm) || u.arm in {InputArm, CompileArm, OutputArm, DepTargetArm})
      && LastValue(us, OutputArm) == Some(args.outputs[OBJ])
  {
    var g := GrammarOf(takesValue);
    var us := Units(tokens, g);
    UnitsConserve(tokens, g);
    ValuesKept(tokens, g);
    ArmsAccepted(us);
    assert Classify(us).Accepted?;
  }

  lemma {:induction false} ArmsAccepted(us: seq<Unit<Arm>>)
    requires !Refused(us) && Inputs(us) != []
    ensures Inputs(us) == [Inputs(us)[0]]
    ensures forall u :: u in us ==>
              IsCommon(u.arm) || IsPreprocessor(u.arm) || u.arm in {InputArm, CompileArm, OutputArm, DepTargetArm}
  {
    assert Inputs(us)[1..] == [];
    forall u | u in us
      ensures IsCommon(u.arm) || IsPreprocessor(u.arm) || u.arm in {InputArm, CompileArm, OutputArm, DepTargetArm}
    {
      var i :| 0 <= i < |us| && us[i] == u;
      assert us[i].arm != RefusedArm;
    }
  }

  lemma {:induction false} InputToken(tokens: seq<string>, takesValue: string -> bool, us: seq<Unit<Arm>>,
                                      input: string)
    requires us == Units(tokens, GrammarOf(takesValue)) && Inputs(us) == [input]
    ensures ArmOf(input, takesValue) == InputArm && input in tokens
  {
    var g := GrammarOf(takesValue);
    UnitsConserve(tokens, g);
    ValuesKept(tokens, g);
    var i := BucketSource(us, IsInput, input);
    assert OfItsArm(us[i], g);
    BucketWithin(us, IsInput);
  }

  lemma {:induction false} ObjectToken(us: seq<Unit<Arm>>, obj: string)
    requires LastValue(us, OutputArm) == Some(obj)
    ensures obj in Flatten(us)
  {
    LastSource(us, OutputArm);
    var o := Last(us, OutputArm).value;
    var j :| 0 <= j < |us| && us[j] == o;
    UnitWithin(us, j);
    assert o.Tokens()[1] == obj;
  }

  /** The object of an accepted line, and the arm its input went through. */
  lemma {:induction false} AcceptedInput(tokens: seq<string>, takesValue: string -> bool)
    requires Parse(tokens, takesValue).Accepted?
    ensures
      var args := Parse(tokens, takesValue).args;
      && ArmOf(args.input, takesValue) == InputArm && args.input != "-"
      && args.input in tokens && args.outputs[OBJ] in tokens
      && (forall arg :: arg in args.commonArgs ==> arg in tokens)
  {
    var us := Units(tokens, GrammarOf(takesValue));
    var args := Parse(tokens, takesValue).args;
    TokenConservation(tokens, takesValue);
    InputToken(tokens, takesValue, us, args.input);
    ObjectToken(us, args.outputs[OBJ]);
    BucketWithin(us, IsCommon);
  }

  // ----- Print then parse -----

  /** The command line that `compile` rebuilds from a parsed one. */
  function Rebuilt(args: ParsedArguments): seq<string>
    requires OBJ in args.outputs
  {
    ["-c", args.input, "-o", args.outputs[OBJ]] + args.commonArgs
  }

  function FrontUnits(input: string, obj: string): seq<Unit<Arm>> {
    [Unit(CompileArm, "-c", None), Unit(InputArm, input, None), Unit(OutputArm, "-o", Some(obj))]
  }

  lemma {:induction false} RebuiltUnitsAre(input: string, obj: string, common: seq<string>, takesValue: string -> bool)
    requires ArmOf(input, takesValue) == InputArm
    ensures Units(["-c", input, "-o", obj] + common, GrammarOf(takesValue))
         == FrontUnits(input, obj) + Units(common, GrammarOf(takesValue))
  {
    var c, i, o := Unit(CompileArm, "-c", None), Unit(InputArm, input, None), Unit(OutputArm, "-o", Some(obj));
    ThreeBefore(c, i, o, common, GrammarOf(takesValue));
    assert c.Tokens() + i.Tokens() + o.Tokens() == ["-c", input, "-o", obj];
    assert [c] + [i] + [o] == FrontUnits(input, obj);
  }

  lemma {:induction false} FrontLast(input: string, obj: string, arm: Arm)
    ensures Has(FrontUnits(input, obj), arm) <==> arm in {CompileArm, InputArm, OutputArm}
    ensures arm == OutputArm ==> Last(FrontUnits(input, obj), arm) == Some(Unit(OutputArm, "-o", Some(obj)))
  {
    var front := FrontUnits(input, obj);
    assert front == [front[0]] + [front[1]] + [front[2]];
    HasConcat([front[0]] + [front[1]], [front[2]], arm);
    HasConcat([front[0]], [front[1]], arm);
    LastConcat([front[0]] + [front[1]], [front[2]], arm);
    LastOne(front[0], arm);
    LastOne(front[1], arm);
    LastOne(front[2], arm);
  }

  lemma {:induction false} RebuiltBuckets(input: string, obj: string, cs: seq<Unit<Arm>>)
    requires forall u :: u in cs ==> IsCommon(u.arm)
    ensures
      var us := FrontUnits(input, obj) + cs;
      && Inputs(us) == [input] && Bucket(us, IsPreprocessor) == [] && Bucket(us, IsCommon) == Bucket(cs, IsCommon)
  {
    NoneOf(cs, IsCommon, IsInput, InputArm);
    NoneOf(cs, IsCommon, IsPreprocessor, DepModeArm);
    var c, i, o := Unit(CompileArm, "-c", None), Unit(InputArm, input, None), Unit(OutputArm, "-o", Some(obj));
    assert FrontUnits(input, obj) == [c] + [i] + [o];
    MiddleBucket(c, i, o, cs, IsInput);
    MiddleBucket(c, i, o, cs, IsPreprocessor);
    MiddleBucket(c, i, o, cs, IsCommon);
  }

  lemma {:induction false} RebuiltArms(input: string, obj: string, cs: seq<Unit<Arm>>)
    requires forall u :: u in cs ==> IsCommon(u.arm)
    ensures
      var us := FrontUnits(input, obj) + cs;
      && Has(us, CompileArm) && !Has(us, RefusedArm) && !Has(us, DepModeArm)
      && (Has(us, SplitDwarfArm) <==> Has(cs, SplitDwarfArm))
      && LastValue(us, OutputArm) == Some(obj)
  {
    var front := FrontUnits(input, obj);
    NoneOf(cs, IsCommon, IsInput, RefusedArm);
    NoneOf(cs, IsCommon, IsPreprocessor, DepModeArm);
    NoneOf(cs, IsCommon, IsInput, OutputArm);
    forall arm: Arm ensures Has(front + cs, arm) <==> Has(front, arm) || Has(cs, arm) { HasConcat(front, cs, arm); }
    forall arm: Arm ensures Has(front, arm) <==> arm in {CompileArm, InputArm, OutputArm} {
      FrontLast(input, obj, arm);
    }
    FrontLast(input, obj, OutputArm);
    LastConcat(front, cs, OutputArm);
  }

  lemma {:induction false} RebuiltClassifies(input: string, obj: string, cs: seq<Unit<Arm>>)
    requires forall u :: u in cs ==> IsCommon(u.arm)
    requires input != "-" && Paths.Extension(input).Some? && KnownExtension(Paths.Extension(input).value)
    ensures Classify(FrontUnits(input, obj) + cs)
         == Accepted(ParsedArguments(input, Paths.Extension(input).value, None,
                                     Outputs(obj, Has(cs, SplitDwarfArm)), [], Bucket(cs, IsCommon)))
  {
    RebuiltBuckets(input, obj, cs);
    RebuiltArms(input, obj, cs);
  }

  /** Everything the rebuilt line depends on. */
  ghost predicate Rebuildable(args: ParsedArguments, tokens: seq<string>, takesValue: string -> bool) {
    var us := Units(tokens, GrammarOf(takesValue));
    && OBJ in args.outputs
    && ArmOf(args.input, takesValue) == InputArm && args.input != "-"
    && Paths.Extension(args.input) == Some(args.extension) && KnownExtension(args.extension)
    && args.depfile == None
    && args.outputs == Outputs(args.outputs[OBJ], Has(us, SplitDwarfArm))
    && args.commonArgs == Bucket(us, IsCommon)
  }

  lemma {:induction false} AcceptedRebuildable(tokens: seq<string>, takesValue: string -> bool)
    requires Parse(tokens, takesValue).Accepted?
    ensures Rebuildable(Parse(tokens, takesValue).args, tokens, takesValue)
  {
    AcceptedInput(tokens, takesValue);
  }

  lemma {:induction false} RebuiltParses(args: ParsedArguments, tokens: seq<string>, takesValue: string -> bool)
    requires Rebuildable(args, tokens, takesValue)
    ensures Parse(Rebuilt(args), takesValue) == Accepted(args.(preprocessorArgs := []))
  {
    var g := GrammarOf(takesValue);
    var us := Units(tokens, g);
    var cs := Only(us, IsCommon);
    var obj := args.outputs[OBJ];
    BucketAgain(tokens, g, IsCommon);
    OnlyKeeps(us, IsCommon);
    OnlyKeepsArm(us, IsCommon, SplitDwarfArm);
    RebuiltUnitsAre(args.input, obj, args.commonArgs, takesValue);
    assert Units(Rebuilt(args), g) == FrontUnits(args.input, obj) + cs;
    RebuiltClassifies(args.input, obj, cs);
  }

  /** Print then parse: the line rebuilt from an accepted one is accepted with
      the same input, extension, outputs and common arguments, and nothing for
      the preprocessor, whichever options take values. */
  lemma {:induction false} PrintThenParse(tokens: seq<string>, takesValue: string -> bool)
    requires Parse(tokens, takesValue).Accepted?
    ensures
      var args := Parse(tokens, takesValue).args;
      Parse(Rebuilt(args), takesValue) == Accepted(args.(preprocessorArgs := []))
  {
    AcceptedRebuildable(tokens, takesValue);
    RebuiltParses(Parse(tokens, takesValue).args, tokens, takesValue);
  }

  /** The same with response files: the rebuilt line needs no expansion. */
  lemma {:induction false} PrintThenParseExpanded(files: Files, ranks: Ranks, arguments: seq<string>,
                                                  takesValue: string -> bool)
    requires Acyclic(files, ranks)
    requires Parse(Expand(files, ranks, arguments), takesValue).Accepted?
    ensures
      var args := Parse(Expand(files, ranks, arguments), takesValue).args;
      Parse(Expand(files, ranks, Rebuilt(args)), takesValue) == Accepted(args.(preprocessorArgs := []))
  {
    var tokens := Expand(files, ranks, arguments);
    var args := Parse(tokens, takesValue).args;
    NothingLeft(files, ranks, arguments);
    AcceptedInput(tokens, takesValue);
    LiteralsStay(files, ranks, Rebuilt(args));
    PrintThenParse(tokens, takesValue);
  }

  /** Response-file substitution, as the parser sees it. */
  lemma {:induction false} SubstitutionParses(files: Files, ranks: Ranks, name: string, before: seq<string>,
                                              args: seq<string>, after: seq<string>, takesValue: string -> bool)
    requires Acyclic(files, ranks)
    requires (forall arg :: arg in args ==> PlainWord(arg)) && name in files && files[name] == Join(args)
    ensures Parse(Expand(files, ranks, before + ["@" + name] + after), takesValue)
         == Parse(Expand(files, ranks, before + args + after), takesValue)
  {
    Substitution(files, ranks, name, before, args, after);
  }

  lemma {:induction false} SubstitutionParsesInAnyLayout(files: Files, ranks: Ranks, name: string, seps: seq<string>,
                                                         before: seq<string>, args: seq<string>, after: seq<string>,
                                                         takesValue: string -> bool)
    requires Acyclic(files, ranks)
    requires WellLaid(seps, args) && name in files && files[name] == Laid(seps, args)
    ensures Parse(Expand(files, ranks, before + ["@" + name] + after), takesValue)
         == Parse(Expand(files, ranks, before + args + after), takesValue)
  {
    SubstitutionInAnyLayout(files, ranks, name, seps, before, args, after);
  }

  /** Accepted command lines have the outputs that the cache knows by name. */
  lemma {:induction false} AcceptedOutputs(tokens: seq<string>, takesValue: string -> bool)
    requires Parse(tokens, takesValue).Accepted?
    ensures OutputNames(Parse(tokens, takesValue).args.outputs.Keys)
  {
  }
}
