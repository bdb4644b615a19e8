/** Accepted command lines of GCC and Clang that end in an option without its value, and what
    becomes of them when they are rebuilt with something after it. */
module GccOpenEnds {
  import opened Options
  import opened CompilerArguments
  import Paths
  import opened ArgumentUnits
  import opened GccArguments
  import opened GccCommandLines

  lemma {:induction false} SourceExtension()
    ensures Paths.Extension("a.c") == Some("c") && KnownExtension("c")
  {
    assert "a.c"[..2] == "a." && "a."[..1] == "a" && "a"[..0] == "";
    assert Paths.NameStart("") == 0;
    assert Paths.NameStart("a") == 0;
    assert Paths.NameStart("a.") == 0;
    assert Paths.NameStart("a.c") == 0;
    assert "a.c"[0..] == "a.c" && "a.c"[2..] == "c";
    assert Paths.LastDot("a.") == Some(1);
    assert Paths.LastDot("a.c") == Some(1);
  }

  lemma {:induction false} SourceIsInput(takesValue: string -> bool)
    requires !takesValue("a.c")
    ensures ArmOf("a.c", takesValue) == InputArm
  {
    assert "a.c"[0] == 'a';
  }

  lemma {:induction false} DefineUnit(takesValue: string -> bool)
    requires takesValue("-D")
    ensures Units(["-D"], GrammarOf(takesValue)) == [Unit(ValueArm, "-D", None)]
  {
    assert |"-D"| == 2 && "-D"[1] == 'D';
    assert ["-D"][1..] == [];
  }

  /** Any line `-c input -o obj -D`. */
  lemma {:induction false} OpenLine(input: string, obj: string, takesValue: string -> bool, temporary: string)
    requires takesValue("-D") && ArmOf(input, takesValue) == InputArm && input != "-"
    requires Paths.Extension(input).Some? && KnownExtension(Paths.Extension(input).value)
    requires ArmOf(temporary, takesValue) == InputArm && temporary != "-"
    requires Paths.Extension(temporary) == Paths.Extension(input)
    ensures
      var line := ["-c", input, "-o", obj] + ["-D"];
      && Parse(line, takesValue).Accepted? && EndsOpen(line, takesValue, IsCommon)
      && Parse(Attempt(Parse(line, takesValue).args, temporary), takesValue)
         != Accepted(Parse(line, takesValue).args.(input := temporary, preprocessorArgs := []))
  {
    DefineUnit(takesValue);
    RebuiltUnitsAre(input, obj, ["-D"], takesValue);
    RebuiltClassifies(input, obj, [Unit(ValueArm, "-D", None)]);
    AttemptParses(["-c", input, "-o", obj] + ["-D"], temporary, takesValue);
  }

  /** A line `-c a.c -o a.o -D`. */
  lemma {:induction false} BareDefine(takesValue: string -> bool, temporary: string)
    requires takesValue("-D") && !takesValue("a.c")
    requires ArmOf(temporary, takesValue) == InputArm && temporary != "-" && Paths.Extension(temporary) == Some("c")
    ensures
      var line := ["-c", "a.c", "-o", "a.o"] + ["-D"];
      && Parse(line, takesValue).Accepted? && EndsOpen(line, takesValue, IsCommon)
      && Parse(Attempt(Parse(line, takesValue).args, temporary), takesValue)
         != Accepted(Parse(line, takesValue).args.(input := temporary, preprocessorArgs := []))
  {
    SourceExtension();
    SourceIsInput(takesValue);
    assert "a.c" != "-" by { assert |"a.c"| == 3; }
    OpenLine("a.c", "a.o", takesValue, temporary);
  }

  /** A line `-c a.c -o a.o -DX -MF`: the preprocessor takes `-DX` for the name of
      the dependency file. */
  lemma {:induction false} BareDepFile(takesValue: string -> bool)
    requires !takesValue("-DX") && !takesValue("-MF") && !takesValue("a.c")
    ensures
      var line := ["-c", "a.c", "-o", "a.o"] + ["-DX", "-MF"];
      && Parse(line, takesValue).Accepted? && EndsOpen(line, takesValue, IsPreprocessor)
      && Parse(line, takesValue).args.preprocessorArgs + Parse(line, takesValue).args.commonArgs == ["-MF", "-DX"]
      && Units(["-MF", "-DX"], GrammarOf(takesValue)) == [Unit(DepFileArm, "-MF", Some("-DX"))]
  {
    var g, x, m := GrammarOf(takesValue), Unit(OptionArm, "-DX", None), Unit(DepFileArm, "-MF", None);
    DepFileArms(takesValue);
    FirstAgain(m, [], g);
    FirstAgain(x, ["-MF"], g);
    assert m.Tokens() + [] == ["-MF"] && x.Tokens() + ["-MF"] == ["-DX", "-MF"];
    assert [x] + ([m] + []) == [x] + [m];
    SourceExtension();
    SourceIsInput(takesValue);
    RebuiltUnitsAre("a.c", "a.o", ["-DX", "-MF"], takesValue);
    Regrouped(FrontUnits("a.c", "a.o"), [x], [m]);
    DepFileClassifies(x, m);
    OneDangles(m, ["-DX"], g);
    assert ["-MF"] + ["-DX"] == ["-MF", "-DX"] && ["-DX"][1..] == [];
    assert Filled([m], "-DX") + [] == [Unit(DepFileArm, "-MF", Some("-DX"))];
  }

  lemma {:induction false} DepFileArms(takesValue: string -> bool)
    requires !takesValue("-DX") && !takesValue("-MF")
    ensures ArmOf("-DX", takesValue) == OptionArm && ArmOf("-MF", takesValue) == DepFileArm
  {
    assert |"-DX"| == 3 && "-DX"[0] == '-' && "-DX"[1] == 'D';
    assert |"-MF"| == 3 && "-MF"[0] == '-' && "-MF"[1] == 'M';
  }

  lemma {:induction false} DepFileClassifies(x: Unit<Arm>, m: Unit<Arm>)
    requires x == Unit(OptionArm, "-DX", None) && m == Unit(DepFileArm, "-MF", None)
    ensures Classify(FrontUnits("a.c", "a.o") + [x] + [m])
         == Accepted(ParsedArguments("a.c", "c", None, Outputs("a.o", false), ["-MF"], ["-DX"]))
  {
    SourceExtension();
    DepFileParts("a.c", "a.o", x, m);
    assert "a.c" != "-" by { assert |"a.c"| == 3; }
    Meaning(FrontUnits("a.c", "a.o") + [x] + [m],
            ParsedArguments("a.c", "c", None, Outputs("a.o", false), ["-MF"], ["-DX"]), false);
  }

  /** What the units of an ordinary line amount to. */
  ghost predicate Amounts(us: seq<Unit<Arm>>, input: string, obj: string, pre: seq<string>, common: seq<string>) {
    && Inputs(us) == [input] && Bucket(us, IsCommon) == common && Bucket(us, IsPreprocessor) == pre
    && Has(us, CompileArm) && !Has(us, RefusedArm) && !Has(us, DepModeArm) && !Has(us, SplitDwarfArm)
    && LastValue(us, OutputArm) == Some(obj)
  }

  lemma {:induction false} DepFileParts(input: string, obj: string, x: Unit<Arm>, m: Unit<Arm>)
    requires x == Unit(OptionArm, "-DX", None) && m == Unit(DepFileArm, "-MF", None)
    ensures Amounts(FrontUnits(input, obj) + [x] + [m], input, obj, ["-MF"], ["-DX"])
  {
    RebuiltBuckets(input, obj, [x]);
    RebuiltArms(input, obj, [x]);
    BucketOne(x, IsCommon);
    assert !Has([x], SplitDwarfArm);
    DepFileAdds(FrontUnits(input, obj) + [x], input, obj, m);
  }

  lemma {:induction false} DepFileAdds(us: seq<Unit<Arm>>, input: string, obj: string, m: Unit<Arm>)
    requires m == Unit(DepFileArm, "-MF", None) && Amounts(us, input, obj, [], ["-DX"])
    ensures Amounts(us + [m], input, obj, ["-MF"], ["-DX"])
  {
    DepFileBuckets(us, m);
    DepFileHas(us, m);
    LastMore(us, m, OutputArm);
  }

  lemma {:induction false} DepFileHas(us: seq<Unit<Arm>>, m: Unit<Arm>)
    requires m == Unit(DepFileArm, "-MF", None)
    ensures Has(us + [m], CompileArm) <==> Has(us, CompileArm)
    ensures Has(us + [m], RefusedArm) <==> Has(us, RefusedArm)
    ensures Has(us + [m], DepModeArm) <==> Has(us, DepModeArm)
    ensures Has(us + [m], SplitDwarfArm) <==> Has(us, SplitDwarfArm)
  {
    HasMore(us, m, CompileArm);
    HasMore(us, m, RefusedArm);
    HasMore(us, m, DepModeArm);
    HasMore(us, m, SplitDwarfArm);
  }

  lemma {:induction false} DepFileBuckets(us: seq<Unit<Arm>>, m: Unit<Arm>)
    requires m == Unit(DepFileArm, "-MF", None)
    ensures Inputs(us + [m]) == Inputs(us) && Bucket(us + [m], IsCommon) == Bucket(us, IsCommon)
    ensures Bucket(us + [m], IsPreprocessor) == Bucket(us, IsPreprocessor) + ["-MF"]
  {
    BucketMore(us, m, IsInput);
    BucketMore(us, m, IsCommon);
    BucketMore(us, m, IsPreprocessor);
  }

  /** GCC's and Clang's tables are such tables. */
  lemma {:induction false} TablesHaveThem()
    ensures GccTakesValue("-D") && !GccTakesValue("a.c") && !GccTakesValue("-DX") && !GccTakesValue("-MF")
    ensures ClangTakesValue("-D") && !ClangTakesValue("a.c") && !ClangTakesValue("-DX") && !ClangTakesValue("-MF")
  {
    assert ARGS_WITH_VALUE[2] == "-D";
    NotAmong("a.c");
    NotAmong("-DX");
    NotAmong("-MF");
  }

  lemma {:induction false} NotAmong(arg: string)
    requires |arg| == 3 && (arg[0] != '-' || arg[1..] == "DX" || arg[1..] == "MF")
    ensures !ClangTakesValue(arg)
  {
    forall i | 0 <= i < |ARGS_WITH_VALUE| ensures ARGS_WITH_VALUE[i] != arg {
      assert |ARGS_WITH_VALUE[i]| == 3 ==> false;
    }
  }
}

/** The same for Microsoft Visual C++. */
module MsvcOpenEnds {
  import opened Options
  import opened CompilerArguments
  import Paths
  import opened ArgumentUnits
  import opened MsvcArguments
  import opened MsvcCommandLines
  import GccOpenEnds

  lemma {:induction false} OpenUnit()
    ensures Units(["-FI"], Grammars) == [Unit(ForcedIncludeArm, "-FI", None)]
  {
    assert |"-FI"| == 3 && "-FI"[2] == 'I';
    assert ["-FI"][1..] == [];
  }

  /** Any line `-c input -Foobj -FI`. */
  lemma {:induction false} OpenLine(input: string, obj: string, temporary: string)
    requires ArmOf(input) == InputArm && Paths.Extension(input).Some?
    requires ArmOf(temporary) == InputArm && Paths.Extension(temporary) == Paths.Extension(input)
    ensures
      var line := ["-c", input, "-Fo" + obj] + ["-FI"];
      && Parse(line).Accepted? && EndsOpen(line)
      && Parse(Attempt(Parse(line).args, temporary)) != Accepted(Parse(line).args.(input := temporary, depfile := None))
  {
    var d := Unit(ForcedIncludeArm, "-FI", None);
    OpenUnit();
    RebuiltUnitsAre(input, obj, ["-FI"]);
    assert !Has([d], DebugArm);
    RebuiltClassifies(input, obj, [d]);
    AttemptParses(["-c", input, "-Fo" + obj] + ["-FI"], temporary);
  }

  /** A line `-c a.c -Foa.o -FI`. */
  lemma {:induction false} BareForcedInclude(temporary: string)
    requires ArmOf(temporary) == InputArm && Paths.Extension(temporary) == Some("c")
    ensures
      var line := ["-c", "a.c", "-Fo" + "a.o"] + ["-FI"];
      && Parse(line).Accepted? && EndsOpen(line)
      && Parse(Attempt(Parse(line).args, temporary)) != Accepted(Parse(line).args.(input := temporary, depfile := None))
  {
    GccOpenEnds.SourceExtension();
    SourceIsInput();
    OpenLine("a.c", "a.o", temporary);
  }

  lemma {:induction false} SourceIsInput()
    ensures ArmOf("a.c") == InputArm
  {
    assert "a.c"[0] == 'a';
  }
}
