/** The dependency file written from the compiler's `-showIncludes` lines. */
module MsvcDepfile {
  import opened Text

  predicate Includes(line: string, prefix: string) { prefix <= line }

  function TrimStart(s: string): string {
    if s != "" && IsSpace(s[0]) then TrimStart(s[1..]) else s
  }

  function TrimEnd(s: string): string {
    if s != "" && IsSpace(s[|s| - 1]) then TrimEnd(s[..|s| - 1]) else s
  }

  /** The file named by an include line; `norm` is the system's path
      normalisation. */
  function Dependency(line: string, prefix: string, norm: string -> string): string
    requires Includes(line, prefix)
  {
    norm(TrimEnd(TrimStart(line[|prefix|..])))
  }

  lemma {:induction false} TrimsStart(before: string, s: string)
    requires Separates(before) && s != "" && !Separator(s[0])
    ensures TrimStart(before + s) == s
  {
    SeparatorsAre(s[0]);
    if before == "" {
      assert before + s == s;
    } else {
      SeparatorsAre(before[0]);
      assert (before + s)[1..] == before[1..] + s;
      TrimsStart(before[1..], s);
    }
  }

  lemma {:induction false} TrimsEnd(s: string, after: string)
    requires Separates(after) && s != "" && !Separator(s[|s| - 1])
    ensures TrimEnd(s + after) == s
    decreases |after|
  {
    SeparatorsAre(s[|s| - 1]);
    if after == "" {
      assert s + after == s;
    } else {
      SeparatorsAre(after[|after| - 1]);
      assert (s + after)[..|s + after| - 1] == s + after[..|after| - 1];
      TrimsEnd(s, after[..|after| - 1]);
    }
  }

  /** An include line is the prefix and a name with any white space around
      it. */
  lemma {:induction false} IncludeLine(prefix: string, before: string, name: string, after: string,
                                       norm: string -> string)
    requires Separates(before) && Separates(after)
    requires name != "" && !Separator(name[0]) && !Separator(name[|name| - 1])
    ensures
      var line := prefix + (before + (name + after));
      Includes(line, prefix) && Dependency(line, prefix, norm) == norm(name)
  {
    TrimsStart(before, name + after);
    TrimsEnd(name, after);
    assert (prefix + (before + (name + after)))[|prefix|..] == before + (name + after);
  }

  /** The files that the include lines name. */
  function Dependencies(lines: seq<string>, prefix: string, norm: string -> string): set<string> {
    set i | 0 <= i < |lines| && Includes(lines[i], prefix) :: Dependency(lines[i], prefix, norm)
  }

  /** Names with spaces cannot be written to a make rule. */
  predicate Writable(dep: string) { ' ' !in dep }

  function WritableOf(deps: set<string>): set<string> { set dep | dep in deps && Writable(dep) }

  /** What the compiler printed besides include lines. */
  function Remaining(lines: seq<string>, prefix: string): string {
    if lines == [] then ""
    else
      Remaining(lines[..|lines| - 1], prefix) +
      if Includes(lines[|lines| - 1], prefix) then "" else lines[|lines| - 1] + "\n"
  }

  /** Names in a rule's list, each followed by a space. */
  function Listed(deps: seq<string>): string {
    if deps == [] then "" else Listed(deps[..|deps| - 1]) + deps[|deps| - 1] + " "
  }

  /** An empty rule for each name. */
  function EmptyRules(deps: seq<string>): string {
    if deps == [] then "" else EmptyRules(deps[..|deps| - 1]) + deps[|deps| - 1] + ":\n"
  }

  /** Lexicographic order, as strings are sorted. */
  predicate AtMost(a: string, b: string) {
    a == "" || (b != "" && (a[0] < b[0] || (a[0] == b[0] && AtMost(a[1..], b[1..]))))
  }

  predicate Sorted(deps: seq<string>) {
    forall i, j :: 0 <= i < j < |deps| ==> AtMost(deps[i], deps[j])
  }

  predicate NoRepeats(deps: seq<string>) {
    forall i, j :: 0 <= i < j < |deps| ==> deps[i] != deps[j]
  }

  function Elements(deps: seq<string>): set<string> { set dep | dep in deps }

  lemma {:induction false} AtMostTotal(a: string, b: string)
    ensures AtMost(a, b) || AtMost(b, a)
  {
    if a != "" && b != "" && a[0] == b[0] { AtMostTotal(a[1..], b[1..]); }
  }

  lemma {:induction false} AtMostTransitive(a: string, b: string, c: string)
    requires AtMost(a, b) && AtMost(b, c)
    ensures AtMost(a, c)
  {
    if a != "" && a[0] == b[0] && b[0] == c[0] { AtMostTransitive(a[1..], b[1..], c[1..]); }
  }

  function Place(deps: seq<string>, dep: string): seq<string> {
    if deps == [] || AtMost(dep, deps[0]) then [dep] + deps else [deps[0]] + Place(deps[1..], dep)
  }

  lemma {:induction false} PlaceElements(deps: seq<string>, dep: string)
    ensures forall x :: x in Place(deps, dep) <==> x in deps || x == dep
    ensures Elements(Place(deps, dep)) == Elements(deps) + {dep}
  {
    if deps != [] && !AtMost(dep, deps[0]) { PlaceElements(deps[1..], dep); }
  }

  lemma {:induction false} PlaceSorted(deps: seq<string>, dep: string)
    requires Sorted(deps)
    ensures Sorted(Place(deps, dep))
  {
    if deps == [] {
    } else if AtMost(dep, deps[0]) {
      forall k | 0 <= k < |deps| ensures AtMost(dep, deps[k]) {
        if k > 0 { AtMostTransitive(dep, deps[0], deps[k]); }
      }
    } else {
      AtMostTotal(dep, deps[0]);
      PlaceSorted(deps[1..], dep);
      PlaceElements(deps[1..], dep);
      var rest := Place(deps[1..], dep);
      forall k | 0 <= k < |rest| ensures AtMost(deps[0], rest[k]) {
        if rest[k] != dep {
          assert rest[k] in deps[1..];
          var j :| 0 <= j < |deps[1..]| && deps[1..][j] == rest[k];
          assert deps[j + 1] == rest[k];
        }
      }
    }
  }

  lemma {:induction false} PlaceNoRepeats(deps: seq<string>, dep: string)
    requires NoRepeats(deps) && dep !in deps
    ensures NoRepeats(Place(deps, dep))
  {
    if deps != [] && !AtMost(dep, deps[0]) {
      PlaceNoRepeats(deps[1..], dep);
      PlaceElements(deps[1..], dep);
      var rest := Place(deps[1..], dep);
      forall k | 0 <= k < |rest| ensures rest[k] != deps[0] {
        assert rest[k] in rest;
      }
    }
  }

  lemma {:induction false} AtMostBoth(a: string, b: string)
    requires AtMost(a, b) && AtMost(b, a)
    ensures a == b
  {
    if a != "" && b != "" { AtMostBoth(a[1..], b[1..]); }
  }

  lemma {:induction false} FirstIsLeast(a: seq<string>, b: seq<string>)
    requires Sorted(a) && Sorted(b) && a != [] && b != [] && Elements(a) == Elements(b)
    ensures a[0] == b[0]
  {
    assert a[0] in Elements(b) && b[0] in Elements(a);
    var i :| 0 <= i < |b| && b[i] == a[0];
    var j :| 0 <= j < |a| && a[j] == b[0];
    AtMostSelf(a[0]);
    AtMostSelf(b[0]);
    AtMostBoth(a[0], b[0]);
  }

  lemma {:induction false} AtMostSelf(a: string)
    ensures AtMost(a, a)
  {
    if a != "" { AtMostSelf(a[1..]); }
  }

  lemma {:induction false} WithoutFirst(a: seq<string>)
    requires NoRepeats(a) && a != []
    ensures Elements(a[1..]) == Elements(a) - {a[0]}
  {
    forall x | x in Elements(a) - {a[0]} ensures x in a[1..] {
      var i :| 0 <= i < |a| && a[i] == x;
      assert a[1..][i - 1] == x;
    }
  }

  /** A set of names has only one sorted listing. */
  lemma {:induction false} SortedUnique(a: seq<string>, b: seq<string>)
    requires Sorted(a) && Sorted(b) && NoRepeats(a) && NoRepeats(b) && Elements(a) == Elements(b)
    ensures a == b
    decreases |a|
  {
    assert b != [] ==> b[0] in Elements(b);
    if a != [] {
      assert a[0] in Elements(b);
      FirstIsLeast(a, b);
      WithoutFirst(a);
      WithoutFirst(b);
      SortedUnique(a[1..], b[1..]);
      assert a == [a[0]] + a[1..] && b == [b[0]] + b[1..];
    }
  }

  /** `sort` of distinct names. */
  method SortNames(names: set<string>) returns (deps: seq<string>)
    ensures Sorted(deps) && NoRepeats(deps) && Elements(deps) == names
  {
    deps := [];
    var todo := names;
    while todo != {}
      invariant todo <= names && Elements(deps) == names - todo
      invariant Sorted(deps) && NoRepeats(deps)
      decreases todo
    {
      var dep :| dep in todo;
      assert dep !in Elements(deps);
      PlaceElements(deps, dep);
      PlaceSorted(deps, dep);
      PlaceNoRepeats(deps, dep);
      deps := Place(deps, dep);
      todo := todo - {dep};
    }
  }

  /** A name goes to the rule when it is new and writable. */
  lemma {:induction false} ListedOnce(deps: set<string>, listed: seq<string>, dep: string)
    requires NoRepeats(listed) && Elements(listed) == WritableOf(deps)
    ensures Listed(listed + [dep]) == Listed(listed) + dep + " "
    ensures
      var listed' := if dep !in deps && Writable(dep) then listed + [dep] else listed;
      NoRepeats(listed') && Elements(listed') == WritableOf(deps + {dep})
  {
    ListedMore(listed, dep);
    ElementsMore(listed, dep);
    WritableMore(deps, dep);
    assert dep in listed ==> dep in Elements(listed);
  }

  lemma {:induction false} WritableMore(deps: set<string>, dep: string)
    ensures WritableOf(deps + {dep}) == WritableOf(deps) + if Writable(dep) then {dep} else {}
  {
  }

  /** The loop over what the compiler printed: each new writable name goes to
      the first rule, every other line is kept. */
  method ScanLines(lines: seq<string>, prefix: string, norm: string -> string)
    returns (rule: string, stderr: string, deps: set<string>, ghost listed: seq<string>)
    ensures rule == Listed(listed) && stderr == Remaining(lines, prefix)
    ensures deps == Dependencies(lines, prefix, norm)
    ensures NoRepeats(listed) && Elements(listed) == WritableOf(deps)
  {
    rule, stderr, deps, listed := "", "", {}, [];
    for i := 0 to |lines|
      invariant deps == Dependencies(lines[..i], prefix, norm)
      invariant rule == Listed(listed)
      invariant NoRepeats(listed) && Elements(listed) == WritableOf(deps)
      invariant stderr == Remaining(lines[..i], prefix)
    {
      var line := lines[i];
      OneMoreLine(lines, i, prefix, norm);
      if Includes(line, prefix) {
        var dep := Dependency(line, prefix, norm);
        ListedOnce(deps, listed, dep);
        if dep !in deps && Writable(dep) {
          rule := rule + dep + " ";
          listed := listed + [dep];
        }
        deps := deps + {dep};
      } else {
        stderr := stderr + line + "\n";
      }
    }
    assert lines[..|lines|] == lines;
  }

  function KeepWritable(deps: seq<string>): seq<string> {
    if deps == [] then []
    else
      var last := deps[|deps| - 1];
      KeepWritable(deps[..|deps| - 1]) + if Writable(last) then [last] else []
  }

  lemma {:induction false} KeptInOrder(deps: seq<string>)
    requires Sorted(deps) && NoRepeats(deps)
    ensures Sorted(KeepWritable(deps)) && NoRepeats(KeepWritable(deps))
    ensures forall dep :: dep in KeepWritable(deps) <==> dep in deps && Writable(dep)
  {
    if deps != [] {
      var before, last := deps[..|deps| - 1], deps[|deps| - 1];
      KeptInOrder(before);
      assert deps == before + [last];
      var kept := KeepWritable(before);
      forall k | 0 <= k < |kept| ensures AtMost(kept[k], last) && kept[k] != last {
        assert kept[k] in kept;
        var j :| 0 <= j < |before| && before[j] == kept[k];
        assert deps[j] == kept[k];
      }
    }
  }

  /** The loop writing an empty rule for each name, in sorted order. */
  method WriteRules(deps: set<string>) returns (rules: string, ghost ruled: seq<string>)
    ensures rules == EmptyRules(ruled)
    ensures NoRepeats(ruled) && Sorted(ruled) && Elements(ruled) == WritableOf(deps)
  {
    var sorted := SortNames(deps);
    rules, ruled := "", [];
    for i := 0 to |sorted|
      invariant ruled == KeepWritable(sorted[..i]) && rules == EmptyRules(ruled)
    {
      assert sorted[..i + 1][..i] == sorted[..i];
      var dep := sorted[i];
      if Writable(dep) {
        assert (ruled + [dep])[..|ruled|] == ruled;
        rules := rules + dep + ":\n";
        ruled := ruled + [dep];
      }
    }
    assert sorted[..|sorted|] == sorted;
    KeptInOrder(sorted);
    forall dep ensures dep in Elements(ruled) <==> dep in WritableOf(deps) {
      assert dep in sorted <==> dep in Elements(sorted);
    }
  }

  /** Writes the dependency file and strips the include lines. The first rule
      lists each writable dependency once, the rules after it name the same
      files once each in sorted order, and everything else that was printed is
      kept. */
  method WriteDepfile(obj: string, input: string, lines: seq<string>, prefix: string, norm: string -> string)
    returns (text: string, stderr: string, ghost listed: seq<string>, ghost ruled: seq<string>)
    ensures text == obj + ": " + input + " " + Listed(listed) + "\n" + input + ":\n" + EmptyRules(ruled)
    ensures NoRepeats(listed) && NoRepeats(ruled) && Sorted(ruled)
    ensures Elements(listed) == Elements(ruled)
         == set dep | dep in Dependencies(lines, prefix, norm) && ' ' !in dep
    ensures stderr == Remaining(lines, prefix)
  {
    var rule, deps, rules;
    rule, stderr, deps, listed := ScanLines(lines, prefix, norm);
    rules, ruled := WriteRules(deps);
    text := obj + ": " + input + " " + rule + "\n" + input + ":\n" + rules;
  }

  lemma {:induction false} OneMoreLine(lines: seq<string>, i: nat, prefix: string, norm: string -> string)
    requires i < |lines|
    ensures Dependencies(lines[..i + 1], prefix, norm)
         == Dependencies(lines[..i], prefix, norm)
          + if Includes(lines[i], prefix) then {Dependency(lines[i], prefix, norm)} else {}
    ensures Remaining(lines[..i + 1], prefix)
         == Remaining(lines[..i], prefix) + if Includes(lines[i], prefix) then "" else lines[i] + "\n"
  {
    assert lines[..i + 1][..i] == lines[..i];
    var before, after := Dependencies(lines[..i], prefix, norm), Dependencies(lines[..i + 1], prefix, norm);
    forall dep | dep in before ensures dep in after {
      var k :| 0 <= k < i && Includes(lines[..i][k], prefix) && Dependency(lines[..i][k], prefix, norm) == dep;
      assert lines[..i + 1][k] == lines[..i][k];
    }
    forall dep | dep in after && dep !in before
      ensures Includes(lines[i], prefix) && dep == Dependency(lines[i], prefix, norm)
    {
      var k :| 0 <= k < i + 1 && Includes(lines[..i + 1][k], prefix)
               && Dependency(lines[..i + 1][k], prefix, norm) == dep;
      if k < i { KeptLine(lines, i, k); }
    }
    if Includes(lines[i], prefix) { assert lines[..i + 1][i] == lines[i]; }
  }

  lemma {:induction false} KeptLine(lines: seq<string>, i: nat, k: nat)
    requires k < i < |lines|
    ensures lines[..i][k] == lines[..i + 1][k]
  {
  }

  lemma {:induction false} ElementsMore(listed: seq<string>, dep: string)
    ensures Elements(listed + [dep]) == Elements(listed) + {dep}
  {
    forall x | x in Elements(listed) + {dep} ensures x in listed + [dep] {
      if x == dep { assert (listed + [dep])[|listed|] == dep; }
    }
  }

  lemma {:induction false} ListedMore(listed: seq<string>, dep: string)
    ensures Listed(listed + [dep]) == Listed(listed) + dep + " "
  {
    assert (listed + [dep])[..|listed|] == listed;
  }

  // ----- The written text, name by name -----

  lemma {:induction false} ListedBoth(a: seq<string>, b: seq<string>)
    ensures Listed(a + b) == Listed(a) + Listed(b)
    decreases |b|
  {
    if b == [] {
      assert a + b == a;
    } else {
      assert (a + b)[..|a + b| - 1] == a + b[..|b| - 1];
      ListedBoth(a, b[..|b| - 1]);
    }
  }

  lemma {:induction false} EmptyRulesBoth(a: seq<string>, b: seq<string>)
    ensures EmptyRules(a + b) == EmptyRules(a) + EmptyRules(b)
    decreases |b|
  {
    if b == [] {
      assert a + b == a;
    } else {
      assert (a + b)[..|a + b| - 1] == a + b[..|b| - 1];
      EmptyRulesBoth(a, b[..|b| - 1]);
    }
  }

  lemma {:induction false} RemainingBoth(a: seq<string>, b: seq<string>, prefix: string)
    ensures Remaining(a + b, prefix) == Remaining(a, prefix) + Remaining(b, prefix)
    decreases |b|
  {
    if b == [] {
      assert a + b == a;
    } else {
      assert (a + b)[..|a + b| - 1] == a + b[..|b| - 1];
      RemainingBoth(a, b[..|b| - 1], prefix);
    }
  }

  lemma {:induction false} OneName(dep: string)
    ensures Listed([dep]) == dep + " " && EmptyRules([dep]) == dep + ":\n"
  {
    assert [dep][..0] == [];
    assert "" + dep == dep;
  }

  lemma {:induction false} OneLine(line: string, prefix: string)
    ensures Remaining([line], prefix) == if |line| >= |prefix| && line[..|prefix|] == prefix then "" else line + "\n"
  {
    assert [line][..0] == [];
    assert "" + line == line;
  }

  /** Each name is listed with a space after it and has a rule of its own, and
      each other line is kept, in order. */
  lemma {:induction false} NameByName(before: seq<string>, name: string, after: seq<string>, prefix: string)
    ensures Listed(before + [name] + after) == Listed(before) + (name + " ") + Listed(after)
    ensures EmptyRules(before + [name] + after) == EmptyRules(before) + (name + ":\n") + EmptyRules(after)
    ensures Remaining(before + [name] + after, prefix)
         == Remaining(before, prefix)
          + (if |name| >= |prefix| && name[..|prefix|] == prefix then "" else name + "\n")
          + Remaining(after, prefix)
  {
    ListedBoth(before + [name], after);
    ListedBoth(before, [name]);
    EmptyRulesBoth(before + [name], after);
    EmptyRulesBoth(before, [name]);
    RemainingBoth(before + [name], after, prefix);
    RemainingBoth(before, [name], prefix);
    OneName(name);
    OneLine(name, prefix);
  }
}
