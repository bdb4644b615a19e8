/** What GCC's parser makes of each option, in terms of the tokens of a line: a
    line with the option is compared with the same line without it. */
module GccFlags {
  import opened CompilerArguments
  import opened Options
  import Paths
  import opened PathFacts
  import opened ArgumentUnits
  import opened OneMoreOption
  import opened GccArguments

  // ----- Lines -----

  /** The options of the parser itself. */
  const NAMED: set<string> := {
    "-c", "-o", "-gsplit-dwarf", "-MF", "-MQ", "-MT", "-fcxx-modules", "-fmodules", "-fprofile-use",
    "-M", "-MM", "-MD", "-MMD"}

  /** A table of further options with values. */
  ghost predicate Table(takesValue: string -> bool) {
    forall arg :: takesValue(arg) ==> arg !in NAMED && |arg| > 1 && arg[0] == '-'
  }

  predicate TakesNext(arg: string, takesValue: string -> bool) {
    arg == "-o" || arg == "-MF" || arg == "-MQ" || arg == "-MT" || takesValue(arg)
  }

  /** The line ends in an option that waits for its value. */
  predicate Waiting(tokens: seq<string>, takesValue: string -> bool)
    decreases |tokens|
  {
    tokens != [] &&
    if TakesNext(tokens[0], takesValue) then |tokens| == 1 || Waiting(tokens[2..], takesValue)
    else Waiting(tokens[1..], takesValue)
  }

  /** The option is on the line, and not as the value of another. */
  predicate At(tokens: seq<string>, flag: string, takesValue: string -> bool)
    decreases |tokens|
  {
    tokens != [] &&
    (tokens[0] == flag ||
     if TakesNext(tokens[0], takesValue) && |tokens| > 1 then At(tokens[2..], flag, takesValue)
     else At(tokens[1..], flag, takesValue))
  }

  // ----- Arms -----

  lemma {:induction false} NamedArms(takesValue: string -> bool)
    requires Table(takesValue)
    ensures ArmOf("-c", takesValue) == CompileArm && ArmOf("-o", takesValue) == OutputArm
    ensures ArmOf("-gsplit-dwarf", takesValue) == SplitDwarfArm
    ensures ArmOf("-MF", takesValue) == DepFileArm && ArmOf("-MQ", takesValue) == DepFileArm
    ensures ArmOf("-MT", takesValue) == DepTargetArm
  {
    assert |"-c"| == 2 && "-c"[1] == 'c' && |"-o"| == 2 && "-o"[1] == 'o' && |"-gsplit-dwarf"| == 13;
    assert |"-MF"| == 3 && "-MF"[2] == 'F' && |"-MQ"| == 3 && "-MQ"[2] == 'Q' && |"-MT"| == 3 && "-MT"[2] == 'T';
    assert "-MF" in NAMED && "-MQ" in NAMED && "-MT" in NAMED && "-gsplit-dwarf" in NAMED && "-o" in NAMED;
  }

  lemma {:induction false} RefusedArms(takesValue: string -> bool, flag: string)
    requires Table(takesValue)
    requires flag in {"-fmodules", "-fcxx-modules", "-fprofile-use"} || (|flag| > 0 && flag[0] == '@')
    ensures ArmOf(flag, takesValue) == RefusedArm
  {
    assert |"-c"| == 2 && |"-o"| == 2 && |"-gsplit-dwarf"| == 13 && "-gsplit-dwarf"[1] == 'g';
    assert |"-MF"| == 3 && |"-MQ"| == 3 && |"-MT"| == 3;
    assert |"-fmodules"| == 9 && |"-fcxx-modules"| == 13 && "-fcxx-modules"[1] == 'f' && |"-fprofile-use"| == 13;
    assert "-fprofile-use"[1] == 'f' && "-c"[0] == '-' && "-o"[0] == '-' && "-gsplit-dwarf"[0] == '-';
    assert "-MF"[0] == '-' && "-MQ"[0] == '-' && "-MT"[0] == '-';
    assert !takesValue(flag);
  }

  lemma {:induction false} ModeArms(takesValue: string -> bool, flag: string)
    requires Table(takesValue) && flag in {"-M", "-MM", "-MD", "-MMD"}
    ensures ArmOf(flag, takesValue) == DepModeArm
  {
    assert |"-c"| == 2 && "-c"[1] == 'c' && |"-o"| == 2 && "-o"[1] == 'o' && |"-gsplit-dwarf"| == 13;
    assert |"-MF"| == 3 && "-MF"[2] == 'F' && |"-MQ"| == 3 && "-MQ"[2] == 'Q' && |"-MT"| == 3 && "-MT"[2] == 'T';
    assert |"-M"| == 2 && "-M"[0] == '-' && "-M"[1] == 'M' && |"-MM"| == 3 && "-MM"[0] == '-' && "-MM"[2] == 'M';
    assert |"-MD"| == 3 && "-MD"[0] == '-' && "-MD"[2] == 'D' && |"-MMD"| == 4 && "-MMD"[0] == '-';
    assert |"-fcxx-modules"| == 13 && |"-fmodules"| == 9 && |"-fprofile-use"| == 13;
    assert flag in NAMED;
  }

  /** Any other option, or an option of the table, goes to both. */
  predicate IsOption(arg: string) { |arg| > 1 && arg[0] == '-' && arg !in NAMED }

  lemma {:induction false} OptionArms(takesValue: string -> bool, arg: string)
    requires Table(takesValue) && IsOption(arg)
    ensures ArmOf(arg, takesValue) == if takesValue(arg) then ValueArm else OptionArm
  {
  }

  predicate IsInputName(arg: string) { arg == "" || arg == "-" || (arg[0] != '-' && arg[0] != '@') }

  lemma {:induction false} NamedDashed(flag: string)
    requires flag in NAMED
    ensures |flag| > 1 && flag[0] == '-' && flag[1] in {'c', 'o', 'g', 'M', 'f'}
  {
    assert |"-c"| == 2 && |"-o"| == 2 && |"-M"| == 2 && "-gsplit-dwarf"[1] == 'g';
  }

  lemma {:induction false} InputArms(takesValue: string -> bool, arg: string)
    requires Table(takesValue) && IsInputName(arg)
    ensures ArmOf(arg, takesValue) == InputArm
  {
    if arg in NAMED { NamedDashed(arg); }
    assert arg !in NAMED;
    assert |"-"| == 1 && !takesValue(arg);
  }

  /** Every argument is of one of these kinds. */
  lemma {:induction false} Kinds(arg: string)
    ensures arg in NAMED || IsOption(arg) || IsInputName(arg) || (|arg| > 0 && arg[0] == '@')
  {
    if |arg| == 1 && arg[0] == '-' { assert arg == "-"; }
  }

  lemma {:induction false} WantsIsTakes(arg: string, takesValue: string -> bool)
    requires Table(takesValue)
    ensures WantsValue(ArmOf(arg, takesValue)) <==> TakesNext(arg, takesValue)
  {
    NamedArms(takesValue);
    Kinds(arg);
    if IsInputName(arg) {
      InputArms(takesValue, arg);
      assert |"-o"| == 2 && "-o"[0] == '-' && |"-MF"| == 3 && "-MF"[0] == '-' && |"-MQ"| == 3 && "-MQ"[0] == '-';
      assert |"-MT"| == 3 && "-MT"[0] == '-' && |"-"| == 1;
    } else if IsOption(arg) {
      OptionArms(takesValue, arg);
      assert "-o" in NAMED && "-MF" in NAMED && "-MQ" in NAMED && "-MT" in NAMED;
    } else if arg[0] == '@' || arg in {"-fmodules", "-fcxx-modules", "-fprofile-use"} {
      RefusedArms(takesValue, arg);
      assert "-o"[0] == '-' && "-MF"[0] == '-' && "-MQ"[0] == '-' && "-MT"[0] == '-';
      assert |"-o"| == 2 && |"-MF"| == 3 && |"-MQ"| == 3 && |"-MT"| == 3;
      assert |"-fmodules"| == 9 && |"-fcxx-modules"| == 13 && |"-fprofile-use"| == 13;
    } else if arg in {"-M", "-MM", "-MD", "-MMD"} {
      ModeArms(takesValue, arg);
      assert |"-M"| == 2 && "-M"[1] == 'M' && |"-MM"| == 3 && "-MM"[2] == 'M' && |"-MD"| == 3 && "-MD"[2] == 'D';
      assert |"-MMD"| == 4 && |"-o"| == 2 && "-o"[1] == 'o';
      assert |"-MF"| == 3 && "-MF"[2] == 'F' && |"-MQ"| == 3 && "-MQ"[2] == 'Q' && |"-MT"| == 3 && "-MT"[2] == 'T';
    } else {
      assert |"-c"| == 2 && "-c"[1] == 'c' && |"-o"| == 2 && "-o"[1] == 'o' && |"-gsplit-dwarf"| == 13;
      assert |"-MF"| == 3 && |"-MQ"| == 3 && |"-MT"| == 3;
    }
  }

  lemma {:induction false} WaitingDangles(tokens: seq<string>, takesValue: string -> bool)
    requires Table(takesValue)
    ensures Waiting(tokens, takesValue) <==> Dangling(Units(tokens, GrammarOf(takesValue)), GrammarOf(takesValue))
    decreases |tokens|
  {
    if tokens != [] {
      var g := GrammarOf(takesValue);
      var u := FirstUnit(tokens, g);
      var rest := tokens[|u.Tokens()|..];
      FirstSplits(tokens, u, rest, g);
      WantsIsTakes(tokens[0], takesValue);
      if g.wantsValue(u.arm) && u.value.None? {
        assert [u] + [] == [u];
      } else {
        WaitingDangles(rest, takesValue);
        DanglesBehind(u, Units(rest, g), g);
      }
    }
  }

  lemma {:induction false} AtHas(tokens: seq<string>, flag: string, arm: Arm, takesValue: string -> bool)
    requires Table(takesValue)
    requires forall arg :: ArmOf(arg, takesValue) == arm <==> arg == flag
    ensures At(tokens, flag, takesValue) <==> Has(Units(tokens, GrammarOf(takesValue)), arm)
    decreases |tokens|
  {
    if tokens != [] {
      var g := GrammarOf(takesValue);
      var u := FirstUnit(tokens, g);
      var rest := tokens[|u.Tokens()|..];
      FirstSplits(tokens, u, rest, g);
      WantsIsTakes(tokens[0], takesValue);
      AtHas(rest, flag, arm, takesValue);
      HasConcat([u], Units(rest, g), arm);
      assert Has([u], arm) <==> [u][0].arm == arm;
    }
  }

  // ----- What the result depends on -----

  /** All that the parse result depends on. */
  datatype Summary = Summary(
    refused: bool,
    compile: bool,
    inputs: seq<string>,
    obj: Option<string>,
    target: Option<string>,
    mode: bool,
    split: bool,
    pre: seq<string>,
    common: seq<string>)

  function Summarize(us: seq<Unit<Arm>>): Summary {
    Summary(Refused(us), Has(us, CompileArm), Inputs(us), LastValue(us, OutputArm), LastValue(us, DepTargetArm),
            Has(us, DepModeArm), Has(us, SplitDwarfArm), Bucket(us, IsPreprocessor), Bucket(us, IsCommon))
  }

  function Concluded(s: Summary): Parsed {
    if s.refused then CannotCache
    else if !s.compile then NotCompilation
    else if s.inputs == [] then CannotCache
    else
      var extension := Paths.Extension(s.inputs[0]);
      if extension.None? || !KnownExtension(extension.value) || s.obj.None? then CannotCache
      else
        Accepted(ParsedArguments(s.inputs[0], extension.value, None, Outputs(s.obj.value, s.split),
                                 s.pre + Pair(s), s.common))
  }

  function Pair(s: Summary): seq<string> {
    if s.mode && s.obj.Some? then ["-MT", if s.target.Some? then s.target.value else s.obj.value] else []
  }

  lemma {:induction false} ClassifyConcludes(us: seq<Unit<Arm>>)
    ensures Classify(us) == Concluded(Summarize(us))
  {
  }

  /** How one more unit changes it. */
  ghost predicate Changed(s: Summary, t: Summary, u: Unit<Arm>) {
    && (u.arm != InputArm && u.arm != RefusedArm ==> t.refused == s.refused && t.inputs == s.inputs)
    && (t.compile <==> s.compile || u.arm == CompileArm)
    && (t.mode <==> s.mode || u.arm == DepModeArm)
    && (t.split <==> s.split || u.arm == SplitDwarfArm)
    && (u.arm != OutputArm ==> t.obj == s.obj) && (u.arm != DepTargetArm ==> t.target == s.target)
    && Grown(s.pre, t.pre, Picked(u, IsPreprocessor)) && Grown(s.common, t.common, Picked(u, IsCommon))
  }

  lemma {:induction false} RefusedSame(a: seq<Unit<Arm>>, u: Unit<Arm>, b: seq<Unit<Arm>>)
    requires u.arm != InputArm && u.arm != RefusedArm
    ensures Inputs(a + [u] + b) == Inputs(a + b) && (Refused(a + [u] + b) <==> Refused(a + b))
  {
    InsertedBucket(a, u, b, IsInput);
    InsertedHas(a, u, b, RefusedArm);
  }

  lemma {:induction false} UnitChanges(a: seq<Unit<Arm>>, u: Unit<Arm>, b: seq<Unit<Arm>>)
    ensures Changed(Summarize(a + b), Summarize(a + [u] + b), u)
  {
    if u.arm != InputArm && u.arm != RefusedArm { RefusedSame(a, u, b); }
    InsertedHas(a, u, b, CompileArm);
    InsertedHas(a, u, b, DepModeArm);
    InsertedHas(a, u, b, SplitDwarfArm);
    InsertedLast(a, u, b, OutputArm);
    InsertedLast(a, u, b, DepTargetArm);
    BucketGrows(a, u, b, IsPreprocessor);
    BucketGrows(a, u, b, IsCommon);
  }

  /** The summaries of a line without and with an option. */
  lemma {:induction false} Compare(front: seq<string>, u: Unit<Arm>, rest: seq<string>, takesValue: string -> bool)
    returns (s: Summary, t: Summary)
    requires Table(takesValue) && !Waiting(front, takesValue) && OfItsArm(u, GrammarOf(takesValue))
    requires WantsValue(u.arm) ==> u.value.Some?
    ensures Parse(front + rest, takesValue) == Concluded(s)
    ensures Parse(front + u.Tokens() + rest, takesValue) == Concluded(t)
    ensures Changed(s, t, u)
    ensures
      var g := GrammarOf(takesValue);
      s == Summarize(Units(front, g) + Units(rest, g)) && t == Summarize(Units(front, g) + [u] + Units(rest, g))
  {
    var g := GrammarOf(takesValue);
    var a, b := Units(front, g), Units(rest, g);
    WaitingDangles(front, takesValue);
    WithAndWithout(front, u, rest, GrammarOf(takesValue));
    UnitChanges(a, u, b);
    ClassifyConcludes(a + b);
    ClassifyConcludes(a + [u] + b);
    s, t := Summarize(a + b), Summarize(a + [u] + b);
  }

  // ----- Options for the compiler -----

  lemma {:induction false} CommonConcludes(s: Summary, t: Summary, u: Unit<Arm>)
    requires Changed(s, t, u) && (u.arm == ValueArm || u.arm == OptionArm)
    ensures AddsCommon(Concluded(s), Concluded(t), u.Tokens())
  {
    GrownByNothing(s.pre, t.pre);
  }

  /** Any other option is a common argument. */
  lemma {:induction false} OtherOption(front: seq<string>, flag: string, rest: seq<string>, takesValue: string -> bool)
    requires Table(takesValue) && !Waiting(front, takesValue) && IsOption(flag) && !takesValue(flag)
    ensures AddsCommon(Parse(front + rest, takesValue), Parse(front + [flag] + rest, takesValue), [flag])
  {
    var u := Unit(OptionArm, flag, None);
    OptionArms(takesValue, flag);
    var s, t := Compare(front, u, rest, takesValue);
    CommonConcludes(s, t, u);
  }

  /** An option of the table keeps its value, whatever that looks like. */
  lemma {:induction false} OptionWithValue(front: seq<string>, flag: string, value: string, rest: seq<string>,
                                           takesValue: string -> bool)
    requires Table(takesValue) && !Waiting(front, takesValue) && takesValue(flag)
    ensures AddsCommon(Parse(front + rest, takesValue), Parse(front + [flag, value] + rest, takesValue), [flag, value])
  {
    var u := Unit(ValueArm, flag, Some(value));
    OptionArms(takesValue, flag);
    var s, t := Compare(front, u, rest, takesValue);
    CommonConcludes(s, t, u);
  }

  ghost predicate BecomesSplit(without: Parsed, with: Parsed, flag: string) {
    if without.Accepted?
    then
      with.Accepted? &&
      var was, now := without.args, with.args;
      && Grown(was.commonArgs, now.commonArgs, [flag])
      && now == was.(commonArgs := now.commonArgs, outputs := now.outputs)
      && "obj" in was.outputs
      && now.outputs == map["obj" := was.outputs["obj"], "dwo" := Paths.WithExtension(was.outputs["obj"], "dwo")]
    else with == without
  }

  lemma {:induction false} SplitConcludes(s: Summary, t: Summary, u: Unit<Arm>)
    requires Changed(s, t, u) && u.arm == SplitDwarfArm && u.value == None
    ensures BecomesSplit(Concluded(s), Concluded(t), u.flag)
  {
    GrownByNothing(s.pre, t.pre);
  }

  /** `-gsplit-dwarf` is a common argument and adds an output beside the
      object. */
  lemma {:induction false} SplitDwarf(front: seq<string>, rest: seq<string>, takesValue: string -> bool)
    requires Table(takesValue) && !Waiting(front, takesValue)
    ensures BecomesSplit(Parse(front + rest, takesValue), Parse(front + ["-gsplit-dwarf"] + rest, takesValue),
                         "-gsplit-dwarf")
  {
    var u := Unit(SplitDwarfArm, "-gsplit-dwarf", None);
    NamedArms(takesValue);
    var s, t := Compare(front, u, rest, takesValue);
    SplitConcludes(s, t, u);
  }

  /** That output has the path of the object with another extension. */
  lemma {:induction false} SplitDwarfBeside(front: seq<string>, rest: seq<string>, takesValue: string -> bool,
                                            dir: string, stem: string, extension: string)
    requires Table(takesValue) && !Waiting(front, takesValue) && Parse(front + rest, takesValue).Accepted?
    requires Parts(stem, extension) && Paths.TrimEnd(dir) == dir && (dir == "" || dir[|dir| - 1] != '/')
    requires Parse(front + rest, takesValue).args.outputs["obj"] == dir + "/" + (stem + "." + extension)
    ensures
      var with := Parse(front + ["-gsplit-dwarf"] + rest, takesValue);
      with.Accepted? && "dwo" in with.args.outputs && with.args.outputs["dwo"] == dir + "/" + (stem + "." + "dwo")
  {
    SplitDwarf(front, rest, takesValue);
    WithExtensionOf(dir, stem, extension, "dwo");
  }

  // ----- Options for the preprocessor -----

  /** The parse is the same, but that these arguments are among the
      preprocessor's too. */
  ghost predicate AddsPreprocessor(without: Parsed, with: Parsed, more: seq<string>) {
    if without.Accepted?
    then with.Accepted? && Grown(without.args.preprocessorArgs, with.args.preprocessorArgs, more)
         && with.args == without.args.(preprocessorArgs := with.args.preprocessorArgs)
    else with == without
  }

  lemma {:induction false} PreprocessorConcludes(s: Summary, t: Summary, u: Unit<Arm>)
    requires Changed(s, t, u) && u.arm == DepFileArm
    ensures AddsPreprocessor(Concluded(s), Concluded(t), u.Tokens())
  {
    GrownByNothing(s.common, t.common);
    GrowsBefore(s.pre, t.pre, u.Tokens(), Pair(s));
  }

  /** `-MF` and `-MQ` go to the preprocessor with their value. */
  lemma {:induction false} DependencyFile(front: seq<string>, flag: string, value: string, rest: seq<string>,
                                          takesValue: string -> bool)
    requires Table(takesValue) && !Waiting(front, takesValue) && (flag == "-MF" || flag == "-MQ")
    ensures AddsPreprocessor(Parse(front + rest, takesValue), Parse(front + [flag, value] + rest, takesValue),
                             [flag, value])
  {
    var u := Unit(DepFileArm, flag, Some(value));
    NamedArms(takesValue);
    var s, t := Compare(front, u, rest, takesValue);
    PreprocessorConcludes(s, t, u);
  }

  /** What `-M`, `-MM`, `-MD` and `-MMD` add for the preprocessor: themselves, and
      the target at the end, if it is not there already. */
  ghost predicate AddsMode(without: seq<string>, with: seq<string>, flag: string, target: string) {
    exists before, after ::
      && with == after + ["-MT", target] && Grown(before, after, [flag])
      && (without == before || without == before + ["-MT", target])
  }

  /** The parse is the same, but for that. */
  ghost predicate BecomesMode(without: Parsed, with: Parsed, flag: string, target: string) {
    if without.Accepted?
    then with.Accepted? && with.args == without.args.(preprocessorArgs := with.args.preprocessorArgs)
         && AddsMode(without.args.preprocessorArgs, with.args.preprocessorArgs, flag, target)
    else with == without
  }

  lemma {:induction false} ModeConcludes(s: Summary, t: Summary, u: Unit<Arm>)
    requires Changed(s, t, u) && u.arm == DepModeArm && u.value == None
    ensures BecomesMode(Concluded(s), Concluded(t), u.flag,
                        if s.target.Some? then s.target.value else if s.obj.Some? then s.obj.value else "")
  {
    GrownByNothing(s.common, t.common);
    if Concluded(s).Accepted? { assert s.pre + [] == s.pre; }
  }

  /** The target is the object, if the line names no other. */
  ghost predicate AsksForDependencies(without: Parsed, with: Parsed, flag: string, targeted: bool) {
    && (exists target :: BecomesMode(without, with, flag, target))
    && (without.Accepted? && !targeted ==>
          "obj" in without.args.outputs && BecomesMode(without, with, flag, without.args.outputs["obj"]))
  }

  lemma {:induction false} ModeConcludesTarget(s: Summary, t: Summary, u: Unit<Arm>, targeted: bool)
    requires Changed(s, t, u) && u.arm == DepModeArm && u.value == None && (!targeted ==> s.target == None)
    ensures AsksForDependencies(Concluded(s), Concluded(t), u.flag, targeted)
  {
    ModeConcludes(s, t, u);
  }

  lemma {:induction false} DependencyMode(front: seq<string>, flag: string, rest: seq<string>,
                                          takesValue: string -> bool)
    requires Table(takesValue) && !Waiting(front, takesValue) && flag in {"-M", "-MM", "-MD", "-MMD"}
    ensures AsksForDependencies(Parse(front + rest, takesValue), Parse(front + [flag] + rest, takesValue), flag,
                                At(front, "-MT", takesValue) || At(rest, "-MT", takesValue))
  {
    var u := Unit(DepModeArm, flag, None);
    ModeArms(takesValue, flag);
    var s, t := Compare(front, u, rest, takesValue);
    var targeted := At(front, "-MT", takesValue) || At(rest, "-MT", takesValue);
    if !targeted { NoTarget(front, rest, takesValue); }
    ModeConcludesTarget(s, t, u, targeted);
  }

  /** Which argument an arm takes is seen from the argument. */
  lemma {:induction false} OnlyTarget(takesValue: string -> bool)
    requires Table(takesValue)
    ensures forall arg :: ArmOf(arg, takesValue) == DepTargetArm <==> arg == "-MT"
  {
    NamedArms(takesValue);
  }

  lemma {:induction false} NoTarget(front: seq<string>, rest: seq<string>, takesValue: string -> bool)
    requires Table(takesValue) && !At(front, "-MT", takesValue) && !At(rest, "-MT", takesValue)
    ensures
      var g := GrammarOf(takesValue);
      LastValue(Units(front, g) + Units(rest, g), DepTargetArm) == None
  {
    var g := GrammarOf(takesValue);
    OnlyTarget(takesValue);
    AtHas(front, "-MT", DepTargetArm, takesValue);
    AtHas(rest, "-MT", DepTargetArm, takesValue);
    HasConcat(Units(front, g), Units(rest, g), DepTargetArm);
    LastSource(Units(front, g) + Units(rest, g), DepTargetArm);
  }

  /** The last `-MT` is the target, of which the preprocessor is told at the end
      if it is to write dependencies at all. */
  lemma {:induction false} DependencyTarget(front: seq<string>, value: string, rest: seq<string>,
                                            takesValue: string -> bool)
    requires Table(takesValue) && !Waiting(front, takesValue) && !At(rest, "-MT", takesValue)
    ensures BecomesTarget(Parse(front + rest, takesValue), Parse(front + ["-MT", value] + rest, takesValue), value,
                          NoMode(front, rest, takesValue))
  {
    var g, u := GrammarOf(takesValue), Unit(DepTargetArm, "-MT", Some(value));
    NamedArms(takesValue);
    var s, t := Compare(front, u, rest, takesValue);
    OnlyTarget(takesValue);
    AtHas(rest, "-MT", DepTargetArm, takesValue);
    LastSource(Units(rest, g), DepTargetArm);
    InsertedLast(Units(front, g), u, Units(rest, g), DepTargetArm);
    ModeIsAt(front, rest, takesValue);
    TargetConcludes(s, t, u);
  }

  lemma {:induction false} TargetConcludes(s: Summary, t: Summary, u: Unit<Arm>)
    requires Changed(s, t, u) && u.arm == DepTargetArm && u.value.Some? && t.target == u.value
    ensures BecomesTarget(Concluded(s), Concluded(t), u.value.value, !s.mode)
  {
    GrownByNothing(s.common, t.common);
    GrownByNothing(s.pre, t.pre);
    if Concluded(s).Accepted? && s.mode {
      var was := if s.target.Some? then s.target.value else s.obj.value;
      assert s.pre + Pair(s) == s.pre + ["-MT", was] && t.pre + Pair(t) == s.pre + ["-MT", u.value.value];
    }
  }

  /** The parse is the same, but for the target, if there is one. */
  ghost predicate BecomesTarget(without: Parsed, with: Parsed, target: string, noMode: bool) {
    if without.Accepted?
    then with.Accepted? && with.args == without.args.(preprocessorArgs := with.args.preprocessorArgs)
         && if noMode then with.args.preprocessorArgs == without.args.preprocessorArgs
            else Retargets(without.args.preprocessorArgs, with.args.preprocessorArgs, target)
    else with == without
  }

  /** The same, but for the target at the end. */
  ghost predicate Retargets(without: seq<string>, with: seq<string>, target: string) {
    exists before, was :: without == before + ["-MT", was] && with == before + ["-MT", target]
  }

  predicate NoMode(front: seq<string>, rest: seq<string>, takesValue: string -> bool) {
    forall flag :: flag in {"-M", "-MM", "-MD", "-MMD"} ==> !At(front, flag, takesValue) && !At(rest, flag, takesValue)
  }

  lemma {:induction false} ModeIsAt(front: seq<string>, rest: seq<string>, takesValue: string -> bool)
    requires Table(takesValue)
    ensures
      var g := GrammarOf(takesValue);
      NoMode(front, rest, takesValue) <==> !Has(Units(front, g) + Units(rest, g), DepModeArm)
  {
    var g := GrammarOf(takesValue);
    ModesHave(front, takesValue);
    ModesHave(rest, takesValue);
    HasConcat(Units(front, g), Units(rest, g), DepModeArm);
  }

  predicate AnyMode(tokens: seq<string>, takesValue: string -> bool) {
    || At(tokens, "-M", takesValue) || At(tokens, "-MM", takesValue)
    || At(tokens, "-MD", takesValue) || At(tokens, "-MMD", takesValue)
  }

  lemma {:induction false} IsMode(arg: string, takesValue: string -> bool)
    requires Table(takesValue)
    ensures ArmOf(arg, takesValue) == DepModeArm <==> arg in {"-M", "-MM", "-MD", "-MMD"}
  {
    if arg in {"-M", "-MM", "-MD", "-MMD"} { ModeArms(takesValue, arg); }
  }

  lemma {:induction false} ModesHave(tokens: seq<string>, takesValue: string -> bool)
    requires Table(takesValue)
    ensures AnyMode(tokens, takesValue) <==> Has(Units(tokens, GrammarOf(takesValue)), DepModeArm)
    decreases |tokens|
  {
    if tokens != [] {
      var g := GrammarOf(takesValue);
      var u := FirstUnit(tokens, g);
      var rest := tokens[|u.Tokens()|..];
      FirstSplits(tokens, u, rest, g);
      WantsIsTakes(tokens[0], takesValue);
      IsMode(tokens[0], takesValue);
      ModesHave(rest, takesValue);
      AnyModeFirst(tokens, takesValue);
      HasConcat([u], Units(rest, g), DepModeArm);
      LastOne(u, DepModeArm);
    }
  }

  lemma {:induction false} AnyModeFirst(tokens: seq<string>, takesValue: string -> bool)
    requires tokens != []
    ensures
      var rest := if TakesNext(tokens[0], takesValue) && |tokens| > 1 then tokens[2..] else tokens[1..];
      AnyMode(tokens, takesValue) <==> tokens[0] in {"-M", "-MM", "-MD", "-MMD"} || AnyMode(rest, takesValue)
  {
  }

  // ----- Everything else -----

  /** Options that cannot be cached, and response files that could not be
      read. */
  lemma {:induction false} CannotBeCached(front: seq<string>, flag: string, rest: seq<string>,
                                            takesValue: string -> bool)
    requires Table(takesValue) && !Waiting(front, takesValue)
    requires flag in {"-fmodules", "-fcxx-modules", "-fprofile-use"} || (|flag| > 0 && flag[0] == '@')
    ensures Parse(front + [flag] + rest, takesValue) == CannotCache
  {
    var g, u := GrammarOf(takesValue), Unit(RefusedArm, flag, None);
    RefusedArms(takesValue, flag);
    WaitingDangles(front, takesValue);
    WithAndWithout(front, u, rest, GrammarOf(takesValue));
    InsertedHas(Units(front, g), u, Units(rest, g), RefusedArm);
  }

  lemma {:induction false} OnlyOutput(takesValue: string -> bool)
    requires Table(takesValue)
    ensures forall arg :: ArmOf(arg, takesValue) == OutputArm <==> arg == "-o"
  {
    NamedArms(takesValue);
  }

  lemma {:induction false} OutputConcludes(s: Summary, t: Summary, u: Unit<Arm>)
    requires Changed(s, t, u) && u.arm == OutputArm && u.value.Some? && t.obj == u.value
    ensures Concluded(t).Accepted? ==> Concluded(t).args.outputs["obj"] == u.value.value
    ensures Concluded(s).Accepted? ==>
              Concluded(t).Accepted? &&
              Concluded(t).args == Concluded(s).args.(outputs := Concluded(t).args.outputs,
                                                      preprocessorArgs := Concluded(t).args.preprocessorArgs)
  {
    GrownByNothing(s.common, t.common);
  }

  /** The last `-o` names the object. */
  lemma {:induction false} OutputNamed(front: seq<string>, value: string, rest: seq<string>, takesValue: string -> bool)
    requires Table(takesValue) && !Waiting(front, takesValue) && !At(rest, "-o", takesValue)
    ensures
      var without, with := Parse(front + rest, takesValue), Parse(front + ["-o", value] + rest, takesValue);
      && (with.Accepted? ==> with.args.outputs["obj"] == value)
      && (without.Accepted? ==>
            with.Accepted? && with.args == without.args.(outputs := with.args.outputs,
                                                         preprocessorArgs := with.args.preprocessorArgs))
  {
    var g, u := GrammarOf(takesValue), Unit(OutputArm, "-o", Some(value));
    NamedArms(takesValue);
    var s, t := Compare(front, u, rest, takesValue);
    OnlyOutput(takesValue);
    AtHas(rest, "-o", OutputArm, takesValue);
    LastSource(Units(rest, g), OutputArm);
    InsertedLast(Units(front, g), u, Units(rest, g), OutputArm);
    OutputConcludes(s, t, u);
  }

  lemma {:induction false} OnlyCompile(takesValue: string -> bool)
    requires Table(takesValue)
    ensures forall arg :: ArmOf(arg, takesValue) == CompileArm <==> arg == "-c"
  {
    NamedArms(takesValue);
  }

  lemma {:induction false} CompileConcludes(s: Summary, t: Summary, u: Unit<Arm>)
    requires Changed(s, t, u) && u.arm == CompileArm
    ensures Concluded(t) != NotCompilation
    ensures Concluded(s) != NotCompilation ==> Concluded(t) == Concluded(s)
    ensures !s.compile ==> !Concluded(s).Accepted?
  {
    GrownByNothing(s.common, t.common);
    GrownByNothing(s.pre, t.pre);
  }

  /** Only with `-c` is it a compilation. */
  lemma {:induction false} CompileNamed(front: seq<string>, rest: seq<string>, takesValue: string -> bool)
    requires Table(takesValue) && !Waiting(front, takesValue)
    ensures
      var without, with := Parse(front + rest, takesValue), Parse(front + ["-c"] + rest, takesValue);
      && with != NotCompilation
      && (without != NotCompilation ==> with == without)
      && (!At(front, "-c", takesValue) && !At(rest, "-c", takesValue) ==> !without.Accepted?)
  {
    var g, u := GrammarOf(takesValue), Unit(CompileArm, "-c", None);
    NamedArms(takesValue);
    var s, t := Compare(front, u, rest, takesValue);
    CompileConcludes(s, t, u);
    OnlyCompile(takesValue);
    AtHas(front, "-c", CompileArm, takesValue);
    AtHas(rest, "-c", CompileArm, takesValue);
    HasConcat(Units(front, g), Units(rest, g), CompileArm);
  }

  /** One input, and not standard input. */
  lemma {:induction false} OneInputOnly(front: seq<string>, input: string, rest: seq<string>,
                                          takesValue: string -> bool)
    requires Table(takesValue) && !Waiting(front, takesValue) && IsInputName(input)
    requires input == "-" || Parse(front + rest, takesValue).Accepted?
    ensures Parse(front + [input] + rest, takesValue) == CannotCache
  {
    var g, u := GrammarOf(takesValue), Unit(InputArm, input, None);
    InputArms(takesValue, input);
    WaitingDangles(front, takesValue);
    WithAndWithout(front, u, rest, GrammarOf(takesValue));
    InsertedBucket(Units(front, g), u, Units(rest, g), IsInput);
  }

  lemma {:induction false} SmallestSummary(input: string, obj: string)
    requires input != "-"
    ensures Summarize(FrontUnits(input, obj) + [])
         == Summary(false, true, [input], Some(obj), LastValue(FrontUnits(input, obj) + [], DepTargetArm), false, false,
                    [], [])
  {
    RebuiltBuckets(input, obj, []);
    RebuiltArms(input, obj, []);
  }

  lemma {:induction false} SmallestConcludes(input: string, obj: string, target: Option<string>)
    ensures
      Concluded(Summary(false, true, [input], Some(obj), target, false, false, [], [])) ==
      match Paths.Extension(input)
      case Some(extension) =>
        if extension in {"c", "cc", "cpp", "cxx"}
        then Accepted(ParsedArguments(input, extension, None, map["obj" := obj], [], []))
        else CannotCache
      case None => CannotCache
  {
  }

  /** The smallest line: accepted exactly for the four kinds of source. */
  lemma {:induction false} SmallestLine(input: string, obj: string, takesValue: string -> bool)
    requires Table(takesValue) && IsInputName(input) && input != "-"
    ensures
      Parse(["-c", input, "-o", obj], takesValue) ==
      match Paths.Extension(input)
      case Some(extension) =>
        if extension in {"c", "cc", "cpp", "cxx"}
        then Accepted(ParsedArguments(input, extension, None, map["obj" := obj], [], []))
        else CannotCache
      case None => CannotCache
  {
    InputArms(takesValue, input);
    RebuiltUnitsAre(input, obj, [], takesValue);
    assert ["-c", input, "-o", obj] + [] == ["-c", input, "-o", obj];
    var us := FrontUnits(input, obj) + [];
    ClassifyConcludes(us);
    SmallestSummary(input, obj);
    SmallestConcludes(input, obj, LastValue(us, DepTargetArm));
  }

  lemma {:induction false} TableEntry(arg: string)
    requires ClangTakesValue(arg)
    ensures |arg| > 1 && arg[0] == '-' && arg[1] !in {'c', 'o', 'g', 'M', 'f'}
  {
    if arg in ARGS_WITH_VALUE {
      var i :| 0 <= i < |ARGS_WITH_VALUE| && ARGS_WITH_VALUE[i] == arg;
    } else {
      assert arg == "-arch";
    }
  }

  lemma {:induction false} TablesAreTables()
    ensures Table(GccTakesValue) && Table(ClangTakesValue)
  {
    forall arg | ClangTakesValue(arg) ensures arg !in NAMED && |arg| > 1 && arg[0] == '-' {
      TableEntry(arg);
      if arg in NAMED { NamedDashed(arg); }
    }
  }
}
