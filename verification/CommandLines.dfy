/** The other command lines that are rebuilt from parsed arguments, in which
    something follows the common or preprocessor arguments. They mean what the
    original line meant unless that line ended in a flag without its value. */
module GccCommandLines {
  import opened CompilerArguments
  import opened Options
  import Paths
  import opened ArgumentUnits
  import opened GccArguments

  /** Clang's first attempt: the input is a temporary file and comes last. */
  function Attempt(args: ParsedArguments, temporary: string): seq<string>
    requires OBJ in args.outputs
  {
    ["-c", "-o", args.outputs[OBJ]] + args.commonArgs + [temporary]
  }

  function AttemptFront(obj: string): seq<Unit<Arm>> {
    [Unit(CompileArm, "-c", None)] + [Unit(OutputArm, "-o", Some(obj))]
  }

  lemma {:induction false} AttemptUnits(obj: string, common: seq<string>, temporary: string, takesValue: string -> bool)
    requires ArmOf(temporary, takesValue) == InputArm
    ensures
      var g := GrammarOf(takesValue);
      Units(["-c", "-o", obj] + common + [temporary], g)
      == AttemptFront(obj) + Continued(Units(common, g), [temporary], g)
  {
    var g := GrammarOf(takesValue);
    var c, o := Unit(CompileArm, "-c", None), Unit(OutputArm, "-o", Some(obj));
    UnitsJoin(common, [temporary], g);
    TwoBefore(c, o, common + [temporary], g);
    assert c.Tokens() + o.Tokens() == ["-c", "-o", obj];
    Regrouped(["-c", "-o", obj], common, [temporary]);
  }

  lemma {:induction false} OneInput(temporary: string, takesValue: string -> bool)
    requires ArmOf(temporary, takesValue) == InputArm
    ensures Units([temporary], GrammarOf(takesValue)) == [Unit(InputArm, temporary, None)]
  {
    assert [temporary][1..] == [];
  }

  /** A line that goes on with the input. */
  lemma {:induction false} InputContinues(cs: seq<Unit<Arm>>, temporary: string, takesValue: string -> bool)
    requires ArmOf(temporary, takesValue) == InputArm
    ensures
      var g := GrammarOf(takesValue);
      Continued(cs, [temporary], g)
      == if Dangling(cs, g) then Filled(cs, temporary) else cs + [Unit(InputArm, temporary, None)]
  {
    OneInput(temporary, takesValue);
    assert [temporary][1..] == [];
    if Dangling(cs, GrammarOf(takesValue)) { assert Filled(cs, temporary) + [] == Filled(cs, temporary); }
  }

  lemma {:induction false} InputLastBuckets(obj: string, cs: seq<Unit<Arm>>, temporary: string)
    requires forall u :: u in cs ==> IsCommon(u.arm)
    ensures
      var us := AttemptFront(obj) + cs + [Unit(InputArm, temporary, None)];
      && Inputs(us) == [temporary] && Bucket(us, IsPreprocessor) == [] && Bucket(us, IsCommon) == Bucket(cs, IsCommon)
  {
    NoneOf(cs, IsCommon, IsInput, InputArm);
    NoneOf(cs, IsCommon, IsPreprocessor, DepModeArm);
    var c, o, i := Unit(CompileArm, "-c", None), Unit(OutputArm, "-o", Some(obj)), Unit(InputArm, temporary, None);
    LaterBucket(c, o, cs, i, IsInput);
    LaterBucket(c, o, cs, i, IsPreprocessor);
    LaterBucket(c, o, cs, i, IsCommon);
  }

  lemma {:induction false} InputLastArms(obj: string, cs: seq<Unit<Arm>>, temporary: string)
    requires forall u :: u in cs ==> IsCommon(u.arm)
    ensures
      var us := AttemptFront(obj) + cs + [Unit(InputArm, temporary, None)];
      && Has(us, CompileArm) && !Has(us, RefusedArm) && !Has(us, DepModeArm)
      && (Has(us, SplitDwarfArm) <==> Has(cs, SplitDwarfArm))
      && LastValue(us, OutputArm) == Some(obj)
  {
    var c, o, i := Unit(CompileArm, "-c", None), Unit(OutputArm, "-o", Some(obj)), Unit(InputArm, temporary, None);
    NoneOf(cs, IsCommon, IsInput, RefusedArm);
    NoneOf(cs, IsCommon, IsPreprocessor, DepModeArm);
    NoneOf(cs, IsCommon, IsInput, OutputArm);
    AroundHas(c, o, cs, i, CompileArm);
    AroundHas(c, o, cs, i, RefusedArm);
    AroundHas(c, o, cs, i, DepModeArm);
    AroundHas(c, o, cs, i, SplitDwarfArm);
    AroundLast(c, o, cs, i, OutputArm);
  }

  /** The line ends in a flag of the bucket that wants a value and has none. */
  predicate EndsOpen(tokens: seq<string>, takesValue: string -> bool, bucket: Arm -> bool) {
    var us := Units(tokens, GrammarOf(takesValue));
    Dangling(us, GrammarOf(takesValue)) && bucket(us[|us| - 1].arm)
  }

  /** What units with these parts amount to. */
  lemma {:induction false} Meaning(us: seq<Unit<Arm>>, args: ParsedArguments, splitDwarf: bool)
    requires Inputs(us) == [args.input] && args.input != "-" && OBJ in args.outputs
    requires Paths.Extension(args.input) == Some(args.extension) && KnownExtension(args.extension)
    requires args.depfile == None && args.outputs == Outputs(args.outputs[OBJ], splitDwarf)
    requires Has(us, CompileArm) && !Has(us, RefusedArm) && !Has(us, DepModeArm)
    requires (Has(us, SplitDwarfArm) <==> splitDwarf) && LastValue(us, OutputArm) == Some(args.outputs[OBJ])
    requires Bucket(us, IsPreprocessor) == args.preprocessorArgs
    requires Bucket(us, IsCommon) == args.commonArgs
    ensures Classify(us) == Accepted(args)
  {
    assert Outputs(args.outputs[OBJ], splitDwarf) == args.outputs;
  }

  lemma {:induction false} AttemptWhole(args: ParsedArguments, tokens: seq<string>, temporary: string,
                                        takesValue: string -> bool, cs: seq<Unit<Arm>>)
    requires Rebuildable(args, tokens, takesValue) && ArmOf(temporary, takesValue) == InputArm && temporary != "-"
    requires Paths.Extension(temporary) == Some(args.extension)
    requires cs == Only(Units(tokens, GrammarOf(takesValue)), IsCommon)
    ensures Classify(AttemptFront(args.outputs[OBJ]) + cs + [Unit(InputArm, temporary, None)])
         == Accepted(args.(input := temporary, preprocessorArgs := []))
  {
    var us := Units(tokens, GrammarOf(takesValue));
    OnlyKeeps(us, IsCommon);
    OnlyKeepsArm(us, IsCommon, SplitDwarfArm);
    InputLastBuckets(args.outputs[OBJ], cs, temporary);
    InputLastArms(args.outputs[OBJ], cs, temporary);
    Meaning(AttemptFront(args.outputs[OBJ]) + cs + [Unit(InputArm, temporary, None)],
            args.(input := temporary, preprocessorArgs := []), Has(us, SplitDwarfArm));
  }

  /** A bucket of a line, as a line of its own. */
  lemma {:induction false} BucketUnits(tokens: seq<string>, takesValue: string -> bool, bucket: Arm -> bool)
    ensures
      var g := GrammarOf(takesValue);
      var us := Units(tokens, g);
      && Units(Bucket(us, bucket), g) == Only(us, bucket)
      && (Dangling(Only(us, bucket), g) <==> EndsOpen(tokens, takesValue, bucket))
  {
    var g := GrammarOf(takesValue);
    ValuesKept(tokens, g);
    BucketAgain(tokens, g, bucket);
    OnlyDangles(Units(tokens, g), g, bucket);
  }

  /** How the attempt groups into units. */
  lemma {:induction false} AttemptGroups(args: ParsedArguments, tokens: seq<string>, temporary: string,
                                         takesValue: string -> bool, cs: seq<Unit<Arm>>)
    requires OBJ in args.outputs && args.commonArgs == Bucket(Units(tokens, GrammarOf(takesValue)), IsCommon)
    requires ArmOf(temporary, takesValue) == InputArm
    requires cs == Only(Units(tokens, GrammarOf(takesValue)), IsCommon)
    ensures
      var units, front := Units(Attempt(args, temporary), GrammarOf(takesValue)), AttemptFront(args.outputs[OBJ]);
      if EndsOpen(tokens, takesValue, IsCommon)
      then Dangling(cs, GrammarOf(takesValue)) && units == front + Filled(cs, temporary)
      else units == front + cs + [Unit(InputArm, temporary, None)]
  {
    BucketUnits(tokens, takesValue, IsCommon);
    AttemptUnits(args.outputs[OBJ], args.commonArgs, temporary, takesValue);
    InputContinues(cs, temporary, takesValue);
    Regrouped(AttemptFront(args.outputs[OBJ]), cs, [Unit(InputArm, temporary, None)]);
  }

  /** Clang's first attempt compiles what was asked for, from the temporary
      file, if and only if the original line did not end in a common option that
      was waiting for a value. */
  lemma {:induction false} AttemptParses(tokens: seq<string>, temporary: string, takesValue: string -> bool)
    requires Parse(tokens, takesValue).Accepted?
    requires ArmOf(temporary, takesValue) == InputArm && temporary != "-"
    requires Paths.Extension(temporary) == Some(Parse(tokens, takesValue).args.extension)
    ensures
      var args := Parse(tokens, takesValue).args;
      Parse(Attempt(args, temporary), takesValue) == Accepted(args.(input := temporary, preprocessorArgs := []))
      <==> !EndsOpen(tokens, takesValue, IsCommon)
  {
    var args, us := Parse(tokens, takesValue).args, Units(tokens, GrammarOf(takesValue));
    var cs := Only(us, IsCommon);
    AcceptedRebuildable(tokens, takesValue);
    OnlyKeeps(us, IsCommon);
    AttemptGroups(args, tokens, temporary, takesValue, cs);
    if EndsOpen(tokens, takesValue, IsCommon) {
      FilledLonger(AttemptFront(args.outputs[OBJ]), cs, temporary, IsCommon);
    } else {
      AttemptWhole(args, tokens, temporary, takesValue, cs);
    }
  }

  // ----- The preprocessor's line -----

  function TargetUnit(pair: seq<string>): seq<Unit<Arm>> {
    if |pair| == 2 then [Unit(DepTargetArm, pair[0], Some(pair[1]))] else []
  }

  lemma {:induction false} PairThenCommon(us: seq<Unit<Arm>>, obj: string, common: seq<string>,
                                          takesValue: string -> bool)
    requires !takesValue("-MT")
    ensures Units(TargetPair(us, obj) + common, GrammarOf(takesValue))
         == TargetUnit(TargetPair(us, obj)) + Units(common, GrammarOf(takesValue))
  {
    var pair := TargetPair(us, obj);
    if pair == [] {
      assert pair + common == common;
    } else {
      var u := Unit(DepTargetArm, "-MT", Some(pair[1]));
      assert pair == u.Tokens();
      FirstAgain(u, common, GrammarOf(takesValue));
    }
  }

  lemma {:induction false} PreprocessorUnits(tokens: seq<string>, takesValue: string -> bool, obj: string,
                                             us: seq<Unit<Arm>>, pair: seq<string>)
    requires us == Units(tokens, GrammarOf(takesValue)) && pair == TargetPair(us, obj) && !takesValue("-MT")
    ensures
      Units(Bucket(us, IsPreprocessor) + (pair + Bucket(us, IsCommon)), GrammarOf(takesValue))
      == PreprocessorMeant(us, pair)
      <==> !EndsOpen(tokens, takesValue, IsPreprocessor) || pair + Bucket(us, IsCommon) == []
  {
    BucketUnits(tokens, takesValue, IsPreprocessor);
    BucketUnits(tokens, takesValue, IsCommon);
    PairThenCommon(us, obj, Bucket(us, IsCommon), takesValue);
    LineOfParts(Bucket(us, IsPreprocessor), pair + Bucket(us, IsCommon), GrammarOf(takesValue),
                Only(us, IsPreprocessor), TargetUnit(pair) + Only(us, IsCommon));
  }

  lemma {:induction false} AcceptedBuckets(us: seq<Unit<Arm>>, args: ParsedArguments)
    requires Classify(us) == Accepted(args)
    ensures OBJ in args.outputs && args.commonArgs == Bucket(us, IsCommon)
    ensures args.preprocessorArgs == Bucket(us, IsPreprocessor) + TargetPair(us, args.outputs[OBJ])
  {
  }

  /** The original line's preprocessor units, the target, and the common
      units. */
  function PreprocessorMeant(us: seq<Unit<Arm>>, pair: seq<string>): seq<Unit<Arm>> {
    Only(us, IsPreprocessor) + (TargetUnit(pair) + Only(us, IsCommon))
  }

  /** The preprocessor gets the preprocessor and the common units of the
      original line, and the target, if and only if that line did not end in a
      preprocessor option that was waiting for a value, or if nothing follows
      it. */
  lemma {:induction false} PreprocessorLine(tokens: seq<string>, takesValue: string -> bool, us: seq<Unit<Arm>>,
                                            args: ParsedArguments, pair: seq<string>)
    requires us == Units(tokens, GrammarOf(takesValue)) && Classify(us) == Accepted(args) && !takesValue("-MT")
    requires OBJ in args.outputs && pair == TargetPair(us, args.outputs[OBJ])
    ensures Units(args.preprocessorArgs + args.commonArgs, GrammarOf(takesValue)) == PreprocessorMeant(us, pair)
       <==> !EndsOpen(tokens, takesValue, IsPreprocessor) || pair + args.commonArgs == []
  {
    AcceptedBuckets(us, args);
    PreprocessorUnits(tokens, takesValue, args.outputs[OBJ], us, pair);
    Regrouped(Bucket(us, IsPreprocessor), pair, args.commonArgs);
  }

  lemma {:induction false} LineOfParts(a: seq<string>, b: seq<string>, g: Grammar<Arm>, us: seq<Unit<Arm>>,
                                       vs: seq<Unit<Arm>>)
    requires Units(a, g) == us && Units(b, g) == vs
    ensures Units(a + b, g) == us + vs <==> !Dangling(us, g) || b == []
  {
    if b == [] {
      assert a + b == a && vs == [] && us + vs == us;
    } else {
      UnitsJoin(a, b, g);
      if Dangling(us, g) {
        assert Units(a + b, g)[|us| - 1].value.Some? && (us + vs)[|us| - 1].value.None?;
      }
    }
  }
}

/** The same for Microsoft Visual C++. */
module MsvcCommandLines {
  import opened CompilerArguments
  import opened Options
  import Paths
  import opened ArgumentUnits
  import opened MsvcArguments

  /** The first attempt: the input is a temporary file and comes last. */
  function Attempt(args: ParsedArguments, temporary: string): seq<string>
    requires OBJ in args.outputs
  {
    ["-c", "-Fo" + args.outputs[OBJ]] + args.commonArgs + [temporary]
  }

  function AttemptFront(obj: string): seq<Unit<Arm>> {
    [Unit(CompileArm, "-c", None)] + [Unit(OutputArm, "-Fo" + obj, None)]
  }

  lemma {:induction false} OneInput(temporary: string)
    requires ArmOf(temporary) == InputArm
    ensures Units([temporary], Grammars) == [Unit(InputArm, temporary, None)]
  {
    assert [temporary][1..] == [];
  }

  /** A line that goes on with the input. */
  lemma {:induction false} InputContinues(cs: seq<Unit<Arm>>, temporary: string)
    requires ArmOf(temporary) == InputArm
    ensures Continued(cs, [temporary], Grammars)
         == if Dangling(cs, Grammars) then Filled(cs, temporary) else cs + [Unit(InputArm, temporary, None)]
  {
    OneInput(temporary);
    assert [temporary][1..] == [];
    if Dangling(cs, Grammars) { assert Filled(cs, temporary) + [] == Filled(cs, temporary); }
  }

  lemma {:induction false} AttemptUnits(obj: string, common: seq<string>, temporary: string)
    requires ArmOf(temporary) == InputArm
    ensures Units(["-c", "-Fo" + obj] + common + [temporary], Grammars)
         == AttemptFront(obj) + Continued(Units(common, Grammars), [temporary], Grammars)
  {
    var g := Grammars;
    var c, o := Unit(CompileArm, "-c", None), Unit(OutputArm, "-Fo" + obj, None);
    ObjectFlag(obj);
    UnitsJoin(common, [temporary], g);
    TwoBefore(c, o, common + [temporary], g);
    assert c.Tokens() + o.Tokens() == ["-c", "-Fo" + obj];
    Regrouped(["-c", "-Fo" + obj], common, [temporary]);
  }

  lemma {:induction false} InputLastBuckets(obj: string, cs: seq<Unit<Arm>>, temporary: string)
    requires forall u :: u in cs ==> IsCommon(u.arm)
    ensures
      var us := AttemptFront(obj) + cs + [Unit(InputArm, temporary, None)];
      Inputs(us) == [temporary] && Bucket(us, IsCommon) == Bucket(cs, IsCommon)
  {
    NoneOf(cs, IsCommon, IsInput, InputArm);
    var c, o, i := Unit(CompileArm, "-c", None), Unit(OutputArm, "-Fo" + obj, None), Unit(InputArm, temporary, None);
    LaterBucket(c, o, cs, i, IsInput);
    LaterBucket(c, o, cs, i, IsCommon);
  }

  lemma {:induction false} InputLastArms(obj: string, cs: seq<Unit<Arm>>, temporary: string)
    requires forall u :: u in cs ==> IsCommon(u.arm)
    ensures
      var us := AttemptFront(obj) + cs + [Unit(InputArm, temporary, None)];
      && Has(us, CompileArm) && !Has(us, RefusedArm)
      && (Has(us, DebugArm) <==> Has(cs, DebugArm))
      && Joined(us, OutputArm, 3) == Some(obj)
      && Last(us, PdbArm) == Last(cs, PdbArm)
      && Last(us, DepsArm) == None
  {
    NoneOf(cs, IsCommon, IsInput, RefusedArm);
    NoneOf(cs, IsCommon, IsInput, OutputArm);
    NoneOf(cs, IsCommon, IsInput, DepsArm);
    var c, o, i := Unit(CompileArm, "-c", None), Unit(OutputArm, "-Fo" + obj, None), Unit(InputArm, temporary, None);
    AroundHas(c, o, cs, i, CompileArm);
    AroundHas(c, o, cs, i, RefusedArm);
    AroundHas(c, o, cs, i, DebugArm);
    AroundLast(c, o, cs, i, OutputArm);
    AroundLast(c, o, cs, i, PdbArm);
    AroundLast(c, o, cs, i, DepsArm);
    assert ("-Fo" + obj)[3..] == obj;
  }

  /** The line ends in an option that goes to the compiler and wants a value,
      which is `-FI`. */
  predicate EndsOpen(tokens: seq<string>) {
    var us := Units(tokens, Grammars);
    Dangling(us, Grammars) && IsCommon(us[|us| - 1].arm)
  }

  /** What units with these parts amount to. */
  lemma {:induction false} Meaning(us: seq<Unit<Arm>>, args: ParsedArguments, debug: bool, pdb: Option<string>)
    requires Inputs(us) == [args.input] && OBJ in args.outputs
    requires Paths.Extension(args.input) == Some(args.extension)
    requires args.depfile == None && args.preprocessorArgs == []
    requires Some(args.outputs) == Outputs(args.outputs[OBJ], debug, pdb)
    requires Has(us, CompileArm) && !Has(us, RefusedArm) && (Has(us, DebugArm) <==> debug)
    requires Joined(us, OutputArm, 3) == Some(args.outputs[OBJ]) && Joined(us, PdbArm, 3) == pdb
    requires Last(us, DepsArm) == None && Bucket(us, IsCommon) == args.commonArgs
    ensures Classify(us) == Accepted(args)
  {
  }

  lemma {:induction false} AttemptWhole(args: ParsedArguments, tokens: seq<string>, temporary: string,
                                        cs: seq<Unit<Arm>>)
    requires Rebuildable(args, tokens) && ArmOf(temporary) == InputArm
    requires Paths.Extension(temporary) == Some(args.extension)
    requires cs == Only(Units(tokens, Grammars), IsCommon)
    ensures Classify(AttemptFront(args.outputs[OBJ]) + cs + [Unit(InputArm, temporary, None)])
         == Accepted(args.(input := temporary, depfile := None))
  {
    var us := Units(tokens, Grammars);
    OnlyKeeps(us, IsCommon);
    OnlyKeepsArm(us, IsCommon, DebugArm);
    OnlyKeepsArm(us, IsCommon, PdbArm);
    InputLastBuckets(args.outputs[OBJ], cs, temporary);
    InputLastArms(args.outputs[OBJ], cs, temporary);
    Meaning(AttemptFront(args.outputs[OBJ]) + cs + [Unit(InputArm, temporary, None)],
            args.(input := temporary, depfile := None), Has(us, DebugArm), Joined(us, PdbArm, 3));
  }

  /** The common arguments of a line, as a line of its own. */
  lemma {:induction false} CommonUnits(tokens: seq<string>)
    ensures
      var us := Units(tokens, Grammars);
      && Units(Bucket(us, IsCommon), Grammars) == Only(us, IsCommon)
      && (Dangling(Only(us, IsCommon), Grammars) <==> EndsOpen(tokens))
  {
    ValuesKept(tokens, Grammars);
    BucketAgain(tokens, Grammars, IsCommon);
    OnlyDangles(Units(tokens, Grammars), Grammars, IsCommon);
  }

  lemma {:induction false} AttemptGroups(args: ParsedArguments, tokens: seq<string>, temporary: string,
                                         cs: seq<Unit<Arm>>)
    requires OBJ in args.outputs && args.commonArgs == Bucket(Units(tokens, Grammars), IsCommon)
    requires ArmOf(temporary) == InputArm && cs == Only(Units(tokens, Grammars), IsCommon)
    ensures
      var units, front := Units(Attempt(args, temporary), Grammars), AttemptFront(args.outputs[OBJ]);
      if EndsOpen(tokens) then Dangling(cs, Grammars) && units == front + Filled(cs, temporary)
      else units == front + cs + [Unit(InputArm, temporary, None)]
  {
    CommonUnits(tokens);
    AttemptUnits(args.outputs[OBJ], args.commonArgs, temporary);
    InputContinues(cs, temporary);
    Regrouped(AttemptFront(args.outputs[OBJ]), cs, [Unit(InputArm, temporary, None)]);
  }

  /** The first attempt compiles what was asked for, from the temporary file, if
      and only if the original line did not end in a bare `-FI`. */
  lemma {:induction false} AttemptParses(tokens: seq<string>, temporary: string)
    requires Parse(tokens).Accepted? && ArmOf(temporary) == InputArm
    requires Paths.Extension(temporary) == Some(Parse(tokens).args.extension)
    ensures
      var args := Parse(tokens).args;
      Parse(Attempt(args, temporary)) == Accepted(args.(input := temporary, depfile := None)) <==> !EndsOpen(tokens)
  {
    var args, us := Parse(tokens).args, Units(tokens, Grammars);
    var cs := Only(us, IsCommon);
    AcceptedRebuildable(tokens);
    OnlyKeeps(us, IsCommon);
    AttemptGroups(args, tokens, temporary, cs);
    if EndsOpen(tokens) {
      FilledLonger(AttemptFront(args.outputs[OBJ]), cs, temporary, IsCommon);
    } else {
      AttemptWhole(args, tokens, temporary, cs);
    }
  }

  // ----- The preprocessor's line -----

  /** With a dependency file, the line ends by asking for the included files. */
  function PreprocessLine(args: ParsedArguments): seq<string> {
    ["-E", args.input, "-nologo"] + args.commonArgs + if args.depfile.Some? then ["-showIncludes"] else []
  }

  /** The same in units. */
  function PreprocessorMeant(args: ParsedArguments, cs: seq<Unit<Arm>>): seq<Unit<Arm>> {
    [Unit(OptionArm, "-E", None)] + [Unit(InputArm, args.input, None)] + [Unit(OptionArm, "-nologo", None)] + cs
    + if args.depfile.Some? then [Unit(RefusedArm, "-showIncludes", None)] else []
  }

  lemma {:induction false} PreprocessArms()
    ensures ArmOf("-E") == OptionArm && ArmOf("-nologo") == OptionArm && ArmOf("-showIncludes") == RefusedArm
  {
    assert |"-E"| == 2 && "-E"[0] == '-' && "-E"[1] == 'E';
    assert |"-nologo"| == 7 && "-nologo"[0] == '-' && "-nologo"[1] == 'n';
    assert |"-showIncludes"| == 13 && "-showIncludes"[1] == 's';
  }

  lemma {:induction false} ShowGroups(common: seq<string>, cs: seq<Unit<Arm>>)
    requires Units(common, Grammars) == cs
    ensures Units(common + ["-showIncludes"], Grammars) == cs + [Unit(RefusedArm, "-showIncludes", None)]
       <==> !Dangling(cs, Grammars)
  {
    var show := Unit(RefusedArm, "-showIncludes", None);
    PreprocessArms();
    UnitsJoin(common, ["-showIncludes"], Grammars);
    assert ["-showIncludes"][1..] == [];
    assert Units(["-showIncludes"], Grammars) == [show];
    if Dangling(cs, Grammars) {
      assert Units(common + ["-showIncludes"], Grammars)[|cs| - 1].value.Some?;
      assert (cs + [show])[|cs| - 1].value.None?;
    }
  }

  lemma {:induction false} FrontBefore(input: string, later: seq<string>, units: seq<Unit<Arm>>)
    requires ArmOf(input) == InputArm && Units(later, Grammars) == units
    ensures Units(["-E", input, "-nologo"] + later, Grammars)
         == [Unit(OptionArm, "-E", None)] + [Unit(InputArm, input, None)] + [Unit(OptionArm, "-nologo", None)] + units
  {
    var e, i, n := Unit(OptionArm, "-E", None), Unit(InputArm, input, None), Unit(OptionArm, "-nologo", None);
    PreprocessArms();
    ThreeBefore(e, i, n, later, Grammars);
    assert e.Tokens() + i.Tokens() + n.Tokens() == ["-E", input, "-nologo"];
  }

  /** The preprocessor gets the common options of the original line, and is asked
      for the included files when they are wanted, if and only if that line did
      not end in a bare `-FI` or they are not wanted. */
  lemma {:induction false} PreprocessorLine(tokens: seq<string>)
    requires Parse(tokens).Accepted?
    ensures
      var args, cs := Parse(tokens).args, Only(Units(tokens, Grammars), IsCommon);
      Units(PreprocessLine(args), Grammars) == PreprocessorMeant(args, cs)
      <==> !EndsOpen(tokens) || args.depfile.None?
  {
    var args, cs := Parse(tokens).args, Only(Units(tokens, Grammars), IsCommon);
    AcceptedRebuildable(tokens);
    CommonUnits(tokens);
    PreprocessorGroups(args, cs);
  }

  lemma {:induction false} PreprocessorGroups(args: ParsedArguments, cs: seq<Unit<Arm>>)
    requires ArmOf(args.input) == InputArm && Units(args.commonArgs, Grammars) == cs
    ensures Units(PreprocessLine(args), Grammars) == PreprocessorMeant(args, cs)
       <==> !Dangling(cs, Grammars) || args.depfile.None?
  {
    var e, i, n := Unit(OptionArm, "-E", None), Unit(InputArm, args.input, None), Unit(OptionArm, "-nologo", None);
    var front := [e] + [i] + [n];
    var show := if args.depfile.Some? then ["-showIncludes"] else [];
    var tail := args.commonArgs + show;
    var units := Units(tail, Grammars);
    FrontBefore(args.input, tail, units);
    Regrouped(["-E", args.input, "-nologo"], args.commonArgs, show);
    if args.depfile.None? {
      assert tail == args.commonArgs && front + cs + [] == front + cs;
    } else {
      var meant := cs + [Unit(RefusedArm, "-showIncludes", None)];
      ShowGroups(args.commonArgs, cs);
      Regrouped(front, cs, [Unit(RefusedArm, "-showIncludes", None)]);
      assert front + units == front + meant <==> units == meant by {
        if front + units == front + meant {
          assert units == (front + units)[|front|..] && meant == (front + meant)[|front|..];
        }
      }
    }
  }
}
