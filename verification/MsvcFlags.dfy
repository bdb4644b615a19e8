/** What Microsoft Visual C++'s parser makes of each option, in terms of the
    tokens of a line. */
module MsvcFlags {
  import opened CompilerArguments
  import opened Options
  import Paths
  import opened ArgumentUnits
  import opened OneMoreOption
  import opened MsvcArguments

  // ----- Lines -----

  /** The line ends in an option that waits for its value. */
  predicate Waiting(tokens: seq<string>)
    decreases |tokens|
  {
    tokens != [] && if tokens[0] == "-FI" then |tokens| == 1 || Waiting(tokens[2..]) else Waiting(tokens[1..])
  }

  /** An option with its value joined to it. */
  predicate Begins(arg: string, option: string) {
    |arg| >= |option| && arg[..|option|] == option
  }

  /** Such an option, or exactly this one, is on the line, and not as the value
      of another. */
  predicate At(tokens: seq<string>, option: string, joined: bool)
    decreases |tokens|
  {
    tokens != [] &&
    (tokens[0] == option || (joined && Begins(tokens[0], option)) ||
     if tokens[0] == "-FI" && |tokens| > 1 then At(tokens[2..], option, joined) else At(tokens[1..], option, joined))
  }

  /** Options that make other files too, or other output. */
  const REFUSED: set<string> := {"-showIncludes", "-FA", "-Fa", "-Fe", "-Fm", "-Fp", "-FR", "-Fx"}

  /** Any other option. */
  predicate IsOption(arg: string) {
    && |arg| > 1 && arg[0] == '-'
    && arg !in {"-c", "-FI", "-Zi"} + REFUSED
    && !Begins(arg, "-Fo") && !Begins(arg, "-Fd") && !Begins(arg, "-deps")
  }

  predicate IsInputName(arg: string) { arg == "" || arg == "-" || (arg[0] != '-' && arg[0] != '@') }

  // ----- Arms -----

  lemma {:induction false} NamedArms()
    ensures ArmOf("-c") == CompileArm && ArmOf("-FI") == ForcedIncludeArm && ArmOf("-Zi") == DebugArm
  {
    assert |"-c"| == 2 && |"-FI"| == 3 && "-FI"[1] == 'F' && "-FI"[2] == 'I';
    assert |"-Zi"| == 3 && "-Zi"[1] == 'Z' && "-Zi"[0] == '-' && |"-showIncludes"| == 13;
    assert forall s :: s in MULTI_FILE_OUTPUTS ==> s[1] == 'F';
  }

  lemma {:induction false} RefusedArms(flag: string)
    requires flag in REFUSED || (|flag| > 0 && flag[0] == '@')
    ensures ArmOf(flag) == RefusedArm
  {
    assert |"-c"| == 2 && "-c"[0] == '-' && "-Fo"[0] == '-' && "-FI"[0] == '-' && "-deps"[0] == '-';
    assert "-deps"[1] == 'd' && "-Fo"[1] == 'F' && "-Fo"[2] == 'o' && "-FI"[2] == 'I';
    if flag == "-showIncludes" {
      assert flag[1] == 's';
    } else if flag in REFUSED {
      Multi(flag);
    }
  }

  lemma {:induction false} Multi(flag: string)
    requires flag in REFUSED && flag != "-showIncludes"
    ensures flag in MULTI_FILE_OUTPUTS && |flag| == 3
    ensures flag[0] == '-' && flag[1] == 'F' && flag[2] in {'A', 'a', 'e', 'm', 'p', 'R', 'x'}
  {
    var list := MULTI_FILE_OUTPUTS;
    assert list[0] == "-FA" && list[1] == "-Fa" && list[2] == "-Fe" && list[3] == "-Fm" && list[4] == "-Fp";
    assert list[5] == "-FR" && list[6] == "-Fx";
  }

  lemma {:induction false} MultiIsRefused(flag: string)
    requires flag in MULTI_FILE_OUTPUTS
    ensures flag in REFUSED && flag != "-showIncludes"
  {
    assert |"-showIncludes"| == 13 && |flag| == 3;
  }

  lemma {:induction false} JoinedArms(arg: string)
    ensures Begins(arg, "-Fo") <==> ArmOf(arg) == OutputArm
    ensures Begins(arg, "-deps") <==> ArmOf(arg) == DepsArm
    ensures Begins(arg, "-Fd") <==> ArmOf(arg) == PdbArm
  {
    assert |"-c"| == 2 && "-c"[1] == 'c' && "-Fo"[2] == 'o' && "-FI"[2] == 'I' && "-Fd"[2] == 'd' && "-deps"[1] == 'd';
    assert |"-Fo"| == 3 && |"-Fd"| == 3 && |"-deps"| == 5 && "-showIncludes"[1] == 's' && "-Zi"[1] == 'Z';
    assert "-Fo"[1] == 'F' && "-Fd"[1] == 'F' && "-FI"[1] == 'F';
    assert "-Fo"[0] == '-' && "-Fd"[0] == '-' && "-deps"[0] == '-';
    if arg in MULTI_FILE_OUTPUTS {
      MultiIsRefused(arg);
      Multi(arg);
    }
  }

  lemma {:induction false} OptionArms(arg: string)
    requires IsOption(arg)
    ensures ArmOf(arg) == OptionArm
  {
    JoinedArms(arg);
    if arg in MULTI_FILE_OUTPUTS { MultiIsRefused(arg); }
  }

  lemma {:induction false} InputArms(arg: string)
    requires IsInputName(arg)
    ensures ArmOf(arg) == InputArm
  {
    JoinedArms(arg);
    assert "-c"[0] == '-' && "-FI"[0] == '-' && "-showIncludes"[0] == '-' && "-Zi"[0] == '-';
    assert |"-c"| == 2 && |"-FI"| == 3 && |"-showIncludes"| == 13 && |"-Zi"| == 3 && |"-"| == 1;
    assert "-Fo"[0] == '-' && "-Fd"[0] == '-' && "-deps"[0] == '-';
    if arg in MULTI_FILE_OUTPUTS {
      MultiIsRefused(arg);
      Multi(arg);
    }
  }

  /** Every argument is of one of these kinds. */
  lemma {:induction false} Kinds(arg: string)
    ensures || arg in {"-c", "-FI", "-Zi"} || arg in REFUSED || IsOption(arg) || IsInputName(arg)
            || (|arg| > 0 && arg[0] == '@') || Begins(arg, "-Fo") || Begins(arg, "-Fd") || Begins(arg, "-deps")
  {
    if |arg| == 1 && arg[0] == '-' { assert arg == "-"; }
  }

  lemma {:induction false} NamedOnly(arg: string)
    ensures ArmOf(arg) == ForcedIncludeArm <==> arg == "-FI"
    ensures ArmOf(arg) == CompileArm <==> arg == "-c"
    ensures ArmOf(arg) == DebugArm <==> arg == "-Zi"
  {
    NamedArms();
  }

  lemma {:induction false} WaitingDangles(tokens: seq<string>)
    ensures Waiting(tokens) <==> Dangling(Units(tokens, Grammars), Grammars)
    decreases |tokens|
  {
    if tokens != [] {
      var u := FirstUnit(tokens, Grammars);
      var rest := tokens[|u.Tokens()|..];
      FirstSplits(tokens, u, rest, Grammars);
      NamedOnly(tokens[0]);
      if Grammars.wantsValue(u.arm) && u.value.None? {
        assert [u] + [] == [u];
      } else {
        WaitingDangles(rest);
        DanglesBehind(u, Units(rest, Grammars), Grammars);
      }
    }
  }

  /** The arm that takes exactly these arguments. */
  ghost predicate Takes(arm: Arm, option: string, joined: bool) {
    forall arg :: ArmOf(arg) == arm <==> arg == option || (joined && Begins(arg, option))
  }

  lemma {:induction false} AtHas(tokens: seq<string>, option: string, joined: bool, arm: Arm)
    requires Takes(arm, option, joined)
    ensures At(tokens, option, joined) <==> Has(Units(tokens, Grammars), arm)
    decreases |tokens|
  {
    if tokens != [] {
      var u := FirstUnit(tokens, Grammars);
      var rest := tokens[|u.Tokens()|..];
      FirstSplits(tokens, u, rest, Grammars);
      NamedOnly(tokens[0]);
      AtHas(rest, option, joined, arm);
      HasConcat([u], Units(rest, Grammars), arm);
      LastOne(u, arm);
    }
  }

  // ----- What the result depends on -----

  datatype Summary = Summary(
    refused: bool,
    compile: bool,
    debug: bool,
    inputs: seq<string>,
    obj: Option<string>,
    pdb: Option<string>,
    depfile: Option<string>,
    common: seq<string>)

  function Summarize(us: seq<Unit<Arm>>): Summary {
    Summary(Refused(us), Has(us, CompileArm), Has(us, DebugArm), Inputs(us), Joined(us, OutputArm, 3),
            Joined(us, PdbArm, 3), Joined(us, DepsArm, 5), Bucket(us, IsCommon))
  }

  function Concluded(s: Summary): Parsed {
    if s.refused then CannotCache
    else if !s.compile then NotCompilation
    else if s.inputs == [] then CannotCache
    else
      var extension := Paths.Extension(s.inputs[0]);
      if extension.None? || s.obj.None? || (s.debug && s.pdb.None?) then CannotCache
      else
        var outputs := if s.debug then map["obj" := s.obj.value, "pdb" := s.pdb.value] else map["obj" := s.obj.value];
        Accepted(ParsedArguments(s.inputs[0], extension.value, s.depfile, outputs, [], s.common))
  }

  lemma {:induction false} ClassifyConcludes(us: seq<Unit<Arm>>)
    ensures Classify(us) == Concluded(Summarize(us))
  {
  }

  /** How one more unit changes it. */
  ghost predicate Changed(s: Summary, t: Summary, u: Unit<Arm>) {
    && (u.arm != InputArm && u.arm != RefusedArm ==> t.refused == s.refused && t.inputs == s.inputs)
    && (t.compile <==> s.compile || u.arm == CompileArm)
    && (t.debug <==> s.debug || u.arm == DebugArm)
    && (u.arm != OutputArm ==> t.obj == s.obj)
    && (u.arm != PdbArm ==> t.pdb == s.pdb)
    && (u.arm != DepsArm ==> t.depfile == s.depfile)
    && Grown(s.common, t.common, Picked(u, IsCommon))
  }

  lemma {:induction false} UnitChanges(a: seq<Unit<Arm>>, u: Unit<Arm>, b: seq<Unit<Arm>>)
    ensures Changed(Summarize(a + b), Summarize(a + [u] + b), u)
  {
    InsertedBucket(a, u, b, IsInput);
    InsertedHas(a, u, b, RefusedArm);
    InsertedHas(a, u, b, CompileArm);
    InsertedHas(a, u, b, DebugArm);
    InsertedLast(a, u, b, OutputArm);
    InsertedLast(a, u, b, PdbArm);
    InsertedLast(a, u, b, DepsArm);
    BucketGrows(a, u, b, IsCommon);
  }

  /** The summaries of a line without and with an option. */
  lemma {:induction false} Compare(front: seq<string>, u: Unit<Arm>, rest: seq<string>) returns (s: Summary, t: Summary)
    requires !Waiting(front) && OfItsArm(u, Grammars) && (WantsValue(u.arm) ==> u.value.Some?)
    ensures Parse(front + rest) == Concluded(s) && Parse(front + u.Tokens() + rest) == Concluded(t)
    ensures Changed(s, t, u)
    ensures
      var a, b := Units(front, Grammars), Units(rest, Grammars);
      s == Summarize(a + b) && t == Summarize(a + [u] + b)
  {
    var a, b := Units(front, Grammars), Units(rest, Grammars);
    WaitingDangles(front);
    WithAndWithout(front, u, rest, Grammars);
    UnitChanges(a, u, b);
    ClassifyConcludes(a + b);
    ClassifyConcludes(a + [u] + b);
    s, t := Summarize(a + b), Summarize(a + [u] + b);
  }

  lemma {:induction false} OnlyJoined()
    ensures Takes(OutputArm, "-Fo", true) && Takes(PdbArm, "-Fd", true) && Takes(DepsArm, "-deps", true)
  {
    forall arg ensures Begins(arg, "-Fo") <==> ArmOf(arg) == OutputArm { JoinedArms(arg); }
    forall arg ensures Begins(arg, "-Fd") <==> ArmOf(arg) == PdbArm { JoinedArms(arg); }
    forall arg ensures Begins(arg, "-deps") <==> ArmOf(arg) == DepsArm { JoinedArms(arg); }
  }

  predicate IsJoined(arm: Arm, option: string) {
    (arm == OutputArm && option == "-Fo") || (arm == PdbArm && option == "-Fd") || (arm == DepsArm && option == "-deps")
  }

  lemma {:induction false} JoinedArm(arm: Arm, option: string, value: string)
    requires IsJoined(arm, option)
    ensures ArmOf(option + value) == arm && (option + value)[|option|..] == value
  {
    assert (option + value)[..|option|] == option;
    JoinedArms(option + value);
  }

  /** The last of the joined options counts. */
  lemma {:induction false} LastCounts(front: seq<string>, u: Unit<Arm>, rest: seq<string>, option: string,
                                      value: string)
    requires IsJoined(u.arm, option) && u.flag == option + value && !At(rest, option, true)
    ensures Joined(Units(front, Grammars) + [u] + Units(rest, Grammars), u.arm, |option|) == Some(value)
  {
    OnlyJoined();
    AtHas(rest, option, true, u.arm);
    LastSource(Units(rest, Grammars), u.arm);
    InsertedLast(Units(front, Grammars), u, Units(rest, Grammars), u.arm);
    assert u.flag[|option|..] == value;
  }

  // ----- Each option -----

  /** Any other option is a common argument. */
  lemma {:induction false} OtherOption(front: seq<string>, flag: string, rest: seq<string>)
    requires !Waiting(front) && IsOption(flag)
    ensures AddsCommon(Parse(front + rest), Parse(front + [flag] + rest), [flag])
  {
    OptionArms(flag);
    var s, t := Compare(front, Unit(OptionArm, flag, None), rest);
  }

  /** `-FI` is one and keeps its value, whatever that looks like. */
  lemma {:induction false} ForcedInclude(front: seq<string>, value: string, rest: seq<string>)
    requires !Waiting(front)
    ensures AddsCommon(Parse(front + rest), Parse(front + ["-FI", value] + rest), ["-FI", value])
  {
    NamedArms();
    var s, t := Compare(front, Unit(ForcedIncludeArm, "-FI", Some(value)), rest);
  }

  lemma {:induction false} ObjectConcludes(s: Summary, t: Summary, u: Unit<Arm>, value: string)
    requires Changed(s, t, u) && u.arm == OutputArm && t.obj == Some(value)
    ensures Concluded(t).Accepted? ==> Concluded(t).args.outputs["obj"] == value
    ensures
      var without := Concluded(s);
      without.Accepted? ==> Concluded(t) == Accepted(without.args.(outputs := without.args.outputs["obj" := value]))
  {
    GrownByNothing(s.common, t.common);
  }

  /** `-Fo` with a name joined to it: the last one names the object. */
  lemma {:induction false} ObjectNamed(front: seq<string>, value: string, rest: seq<string>)
    requires !Waiting(front) && !At(rest, "-Fo", true)
    ensures
      var without, with := Parse(front + rest), Parse(front + ["-Fo" + value] + rest);
      && (with.Accepted? ==> with.args.outputs["obj"] == value)
      && (without.Accepted? ==> with == Accepted(without.args.(outputs := without.args.outputs["obj" := value])))
  {
    var u := Unit(OutputArm, "-Fo" + value, None);
    JoinedArm(u.arm, "-Fo", value);
    var s, t := Compare(front, u, rest);
    LastCounts(front, u, rest, "-Fo", value);
    ObjectConcludes(s, t, u, value);
  }

  lemma {:induction false} DepfileConcludes(s: Summary, t: Summary, u: Unit<Arm>, value: string)
    requires Changed(s, t, u) && u.arm == DepsArm && t.depfile == Some(value)
    ensures
      var without := Concluded(s);
      Concluded(t) == if without.Accepted? then Accepted(without.args.(depfile := Some(value))) else without
  {
    GrownByNothing(s.common, t.common);
  }

  /** `-deps` with a name joined to it: the last one names the dependency file,
      and none is passed on. */
  lemma {:induction false} DependencyFile(front: seq<string>, value: string, rest: seq<string>)
    requires !Waiting(front) && !At(rest, "-deps", true)
    ensures
      var without, with := Parse(front + rest), Parse(front + ["-deps" + value] + rest);
      with == if without.Accepted? then Accepted(without.args.(depfile := Some(value))) else without
  {
    var u := Unit(DepsArm, "-deps" + value, None);
    JoinedArm(u.arm, "-deps", value);
    var s, t := Compare(front, u, rest);
    LastCounts(front, u, rest, "-deps", value);
    DepfileConcludes(s, t, u, value);
  }

  lemma {:induction false} DatabaseConcludes(s: Summary, t: Summary, u: Unit<Arm>, value: string)
    requires Changed(s, t, u) && u.arm == PdbArm && u.value == None && t.pdb == Some(value)
    ensures NamesDatabase(Concluded(s), Concluded(t), u.flag, value, s.debug)
  {
  }

  /** The parse is the same, but that the option is among the common arguments
      too, and with debug information names the program database. */
  ghost predicate NamesDatabase(without: Parsed, with: Parsed, flag: string, value: string, debug: bool) {
    && (!debug ==> AddsCommon(without, with, [flag]))
    && (debug && with.Accepted? ==> "pdb" in with.args.outputs && with.args.outputs["pdb"] == value)
    && (debug && without.Accepted? ==>
          with.Accepted? && Grown(without.args.commonArgs, with.args.commonArgs, [flag])
          && with.args == without.args.(commonArgs := with.args.commonArgs,
                                        outputs := without.args.outputs["pdb" := value]))
  }

  /** `-Fd` with a name joined to it is passed on; with `-Zi` on the line the
      last one names the program database, and without it counts for nothing. */
  lemma {:induction false} DatabaseNamed(front: seq<string>, value: string, rest: seq<string>)
    requires !Waiting(front) && !At(rest, "-Fd", true)
    ensures
      var debug := At(front, "-Zi", false) || At(rest, "-Zi", false);
      NamesDatabase(Parse(front + rest), Parse(front + ["-Fd" + value] + rest), "-Fd" + value, value, debug)
  {
    var u := Unit(PdbArm, "-Fd" + value, None);
    JoinedArm(u.arm, "-Fd", value);
    var s, t := Compare(front, u, rest);
    LastCounts(front, u, rest, "-Fd", value);
    DebugIsAt(front, rest);
    DatabaseConcludes(s, t, u, value);
  }

  lemma {:induction false} OnlyDebug()
    ensures Takes(DebugArm, "-Zi", false)
  {
    forall arg ensures ArmOf(arg) == DebugArm <==> arg == "-Zi" { NamedOnly(arg); }
  }

  lemma {:induction false} DebugIsAt(front: seq<string>, rest: seq<string>)
    ensures Has(Units(front, Grammars) + Units(rest, Grammars), DebugArm)
       <==> At(front, "-Zi", false) || At(rest, "-Zi", false)
  {
    OnlyDebug();
    AtHas(front, "-Zi", false, DebugArm);
    AtHas(rest, "-Zi", false, DebugArm);
    HasConcat(Units(front, Grammars), Units(rest, Grammars), DebugArm);
  }

  lemma {:induction false} DatabaseIsAt(front: seq<string>, rest: seq<string>)
    ensures Joined(Units(front, Grammars) + Units(rest, Grammars), PdbArm, 3).Some?
       <==> At(front, "-Fd", true) || At(rest, "-Fd", true)
  {
    OnlyJoined();
    AtHas(front, "-Fd", true, PdbArm);
    AtHas(rest, "-Fd", true, PdbArm);
    HasConcat(Units(front, Grammars), Units(rest, Grammars), PdbArm);
    LastSource(Units(front, Grammars) + Units(rest, Grammars), PdbArm);
  }

  ghost predicate WithDebug(without: Parsed, with: Parsed, flag: string, named: bool) {
    && (!without.Accepted? ==> with == without)
    && (without.Accepted? && !named ==> with == CannotCache)
    && (without.Accepted? && named ==>
          with.Accepted? && Grown(without.args.commonArgs, with.args.commonArgs, [flag])
          && with.args == without.args.(commonArgs := with.args.commonArgs, outputs := with.args.outputs)
          && "obj" in without.args.outputs
          && with.args.outputs.Keys == {"obj", "pdb"} && with.args.outputs["obj"] == without.args.outputs["obj"])
  }

  lemma {:induction false} DebugConcludes(s: Summary, t: Summary, u: Unit<Arm>)
    requires Changed(s, t, u) && u.arm == DebugArm && u.value == None
    ensures WithDebug(Concluded(s), Concluded(t), u.flag, s.pdb.Some?)
  {
  }

  /** `-Zi` is passed on, and needs a named program database, which is then an
      output. */
  lemma {:induction false} DebugInformation(front: seq<string>, rest: seq<string>)
    requires !Waiting(front)
    ensures
      var named := At(front, "-Fd", true) || At(rest, "-Fd", true);
      WithDebug(Parse(front + rest), Parse(front + ["-Zi"] + rest), "-Zi", named)
  {
    NamedArms();
    var u := Unit(DebugArm, "-Zi", None);
    var s, t := Compare(front, u, rest);
    DatabaseIsAt(front, rest);
    DebugConcludes(s, t, u);
  }

  /** Options that cannot be cached. */
  lemma {:induction false} CannotBeCached(front: seq<string>, flag: string, rest: seq<string>)
    requires !Waiting(front)
    requires flag in REFUSED || (|flag| > 0 && flag[0] == '@')
    ensures Parse(front + [flag] + rest) == CannotCache
  {
    var u := Unit(RefusedArm, flag, None);
    RefusedArms(flag);
    WaitingDangles(front);
    WithAndWithout(front, u, rest, Grammars);
    InsertedHas(Units(front, Grammars), u, Units(rest, Grammars), RefusedArm);
  }

  /** Only with `-c` is it a compilation. */
  lemma {:induction false} CompileNamed(front: seq<string>, rest: seq<string>)
    requires !Waiting(front)
    ensures
      var without, with := Parse(front + rest), Parse(front + ["-c"] + rest);
      && with != NotCompilation
      && (without != NotCompilation ==> with == without)
      && (!At(front, "-c", false) && !At(rest, "-c", false) ==> !without.Accepted?)
  {
    NamedArms();
    var s, t := Compare(front, Unit(CompileArm, "-c", None), rest);
    GrownByNothing(s.common, t.common);
    OnlyCompile();
    AtHas(front, "-c", false, CompileArm);
    AtHas(rest, "-c", false, CompileArm);
    HasConcat(Units(front, Grammars), Units(rest, Grammars), CompileArm);
  }

  lemma {:induction false} OnlyCompile()
    ensures Takes(CompileArm, "-c", false)
  {
    forall arg ensures ArmOf(arg) == CompileArm <==> arg == "-c" { NamedOnly(arg); }
  }

  /** One input only. */
  lemma {:induction false} OneInputOnly(front: seq<string>, input: string, rest: seq<string>)
    requires !Waiting(front) && IsInputName(input) && Parse(front + rest).Accepted?
    ensures Parse(front + [input] + rest) == CannotCache
  {
    var u := Unit(InputArm, input, None);
    InputArms(input);
    WaitingDangles(front);
    WithAndWithout(front, u, rest, Grammars);
    InsertedBucket(Units(front, Grammars), u, Units(rest, Grammars), IsInput);
  }

  lemma {:induction false} SmallestSummary(input: string, obj: string)
    ensures Summarize(FrontUnits(input, obj) + []) == Summary(false, true, false, [input], Some(obj), None, None, [])
  {
    RebuiltBuckets(input, obj, []);
    RebuiltArms(input, obj, []);
    assert ("-Fo" + obj)[3..] == obj;
  }

  /** The smallest line: accepted exactly for an input with an extension. */
  lemma {:induction false} SmallestLine(input: string, obj: string)
    requires IsInputName(input)
    ensures
      Parse(["-c", input, "-Fo" + obj]) ==
      match Paths.Extension(input)
      case Some(extension) => Accepted(ParsedArguments(input, extension, None, map["obj" := obj], [], []))
      case None => CannotCache
  {
    InputArms(input);
    RebuiltUnitsAre(input, obj, []);
    SmallestSummary(input, obj);
    assert ["-c", input, "-Fo" + obj] + [] == ["-c", input, "-Fo" + obj];
    ClassifyConcludes(FrontUnits(input, obj) + []);
  }
}
