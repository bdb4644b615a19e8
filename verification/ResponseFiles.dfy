/** `@file` arguments: read lazily by a stack machine, and what they mean. */
module ResponseFiles {
  import opened Options
  import opened Text

  /** The readable files, by the text after the `@`. */
  type Files = map<string, string>

  /** A file may only name files of smaller rank, so inclusion cannot loop. */
  type Ranks = map<string, nat>

  // ----- Splitting -----

  function WordLength(s: string): (n: nat)
    ensures n <= |s|
    ensures s != "" && !IsSpace(s[0]) ==> n > 0
  {
    if s == "" || IsSpace(s[0]) then 0 else 1 + WordLength(s[1..])
  }

  function SplitWhitespace(s: string): seq<string> {
    if s == "" then []
    else if IsSpace(s[0]) then SplitWhitespace(s[1..])
    else [s[..WordLength(s)]] + SplitWhitespace(s[WordLength(s)..])
  }

  predicate HasQuote(s: string) { '"' in s || '\'' in s }

  // ----- Meaning -----

  /** An argument that names a readable file without quotes. */
  predicate Expandable(files: Files, arg: string) {
    |arg| > 0 && arg[0] == '@' && arg[1..] in files && !HasQuote(files[arg[1..]])
  }

  function Included(files: Files, arg: string): seq<string>
    requires Expandable(files, arg)
  {
    SplitWhitespace(files[arg[1..]])
  }

  function RankOf(ranks: Ranks, arg: string): nat {
    if |arg| > 0 && arg[1..] in ranks then ranks[arg[1..]] else 0
  }

  ghost predicate Acyclic(files: Files, ranks: Ranks) {
    forall arg, inner :: Expandable(files, arg) && inner in Included(files, arg) && Expandable(files, inner)
                         ==> RankOf(ranks, inner) < RankOf(ranks, arg)
  }

  /** One more than the largest rank of an expandable argument. */
  ghost function Height(files: Files, ranks: Ranks, args: seq<string>): (h: nat)
    ensures forall arg :: arg in args && Expandable(files, arg) ==> RankOf(ranks, arg) < h
  {
    if args == [] then 0
    else
      var rest := Height(files, ranks, args[1..]);
      if Expandable(files, args[0]) && RankOf(ranks, args[0]) >= rest then RankOf(ranks, args[0]) + 1 else rest
  }

  lemma {:induction false} HeightBelow(files: Files, ranks: Ranks, args: seq<string>, h: nat)
    requires forall arg :: arg in args && Expandable(files, arg) ==> RankOf(ranks, arg) < h
    ensures Height(files, ranks, args) <= h
  {
    if args != [] { HeightBelow(files, ranks, args[1..], h); }
  }

  /** The depth-first recursive expansion. */
  ghost function Expand(files: Files, ranks: Ranks, args: seq<string>): seq<string>
    requires Acyclic(files, ranks)
    decreases Height(files, ranks, args), |args|
  {
    if args == [] then []
    else
      HeightBelow(files, ranks, args[1..], Height(files, ranks, args));
      (if Expandable(files, args[0]) then
         HeightBelow(files, ranks, Included(files, args[0]), RankOf(ranks, args[0]));
         Expand(files, ranks, Included(files, args[0]))
       else [args[0]])
      + Expand(files, ranks, args[1..])
  }

  lemma {:induction false} ExpandConcat(files: Files, ranks: Ranks, a: seq<string>, b: seq<string>)
    requires Acyclic(files, ranks)
    ensures Expand(files, ranks, a + b) == Expand(files, ranks, a) + Expand(files, ranks, b)
    decreases |a|
  {
    if a == [] {
      assert a + b == b;
    } else {
      assert (a + b)[1..] == a[1..] + b;
      ExpandConcat(files, ranks, a[1..], b);
    }
  }

  /** Nothing is left to expand in an expansion. */
  lemma {:induction false} NothingLeft(files: Files, ranks: Ranks, args: seq<string>)
    requires Acyclic(files, ranks)
    ensures forall arg :: arg in Expand(files, ranks, args) ==> !Expandable(files, arg)
    decreases Height(files, ranks, args), |args|
  {
    if args != [] {
      HeightBelow(files, ranks, args[1..], Height(files, ranks, args));
      NothingLeft(files, ranks, args[1..]);
      if Expandable(files, args[0]) {
        HeightBelow(files, ranks, Included(files, args[0]), RankOf(ranks, args[0]));
        NothingLeft(files, ranks, Included(files, args[0]));
      }
    }
  }

  /** Arguments that cannot be expanded are taken literally: unreadable and
      quoted files among them. */
  lemma {:induction false} LiteralsStay(files: Files, ranks: Ranks, args: seq<string>)
    requires Acyclic(files, ranks)
    requires forall arg :: arg in args ==> !Expandable(files, arg)
    ensures Expand(files, ranks, args) == args
    decreases |args|
  {
    if args != [] { LiteralsStay(files, ranks, args[1..]); }
  }

  /** Expanding an already expanded list changes nothing, and a single argument
      is its own expansion exactly when it does not name a readable file without
      quotes. */
  lemma {:induction false} ExpansionIsFinal(files: Files, ranks: Ranks, args: seq<string>, arg: string)
    requires Acyclic(files, ranks)
    ensures Expand(files, ranks, Expand(files, ranks, args)) == Expand(files, ranks, args)
    ensures Expand(files, ranks, [arg]) == [arg] <==> !Expandable(files, arg)
  {
    NothingLeft(files, ranks, args);
    LiteralsStay(files, ranks, Expand(files, ranks, args));
    if Expandable(files, arg) {
      NothingLeft(files, ranks, [arg]);
    } else {
      LiteralsStay(files, ranks, [arg]);
    }
  }

  // ----- Writing arguments into a file -----

  function Join(args: seq<string>): string {
    if args == [] then "" else args[0] + " " + Join(args[1..])
  }

  predicate PlainWord(arg: string) {
    arg != "" && !HasQuote(arg) && forall i :: 0 <= i < |arg| ==> !IsSpace(arg[i])
  }

  lemma {:induction false} WordThenSpace(word: string, rest: string)
    requires forall i :: 0 <= i < |word| ==> !IsSpace(word[i])
    ensures WordLength(word + " " + rest) == |word|
  {
    if word != "" {
      assert (word + " " + rest)[1..] == word[1..] + " " + rest;
      WordThenSpace(word[1..], rest);
    }
  }

  lemma {:induction false} SplitJoin(args: seq<string>)
    requires forall arg :: arg in args ==> PlainWord(arg)
    ensures SplitWhitespace(Join(args)) == args && !HasQuote(Join(args))
  {
    if args != [] {
      var s := Join(args);
      assert args[0] in args;
      SplitJoin(args[1..]);
      WordThenSpace(args[0], Join(args[1..]));
      assert s[0] == args[0][0];
      assert s[..|args[0]|] == args[0] && s[|args[0]|..] == " " + Join(args[1..]);
      assert (" " + Join(args[1..]))[1..] == Join(args[1..]);
    }
  }

  lemma {:induction false} OneFile(files: Files, ranks: Ranks, name: string, at: seq<string>)
    requires Acyclic(files, ranks) && at == ["@" + name]
    requires name in files && !HasQuote(files[name])
    ensures Expand(files, ranks, at) == Expand(files, ranks, SplitWhitespace(files[name]))
  {
    assert at[0][1..] == name;
    assert at[1..] == [];
  }

  lemma {:induction false} ExpandMiddle(files: Files, ranks: Ranks, a: seq<string>, b: seq<string>, c: seq<string>)
    requires Acyclic(files, ranks)
    ensures Expand(files, ranks, a + b + c)
         == Expand(files, ranks, a) + Expand(files, ranks, b) + Expand(files, ranks, c)
  {
    ExpandConcat(files, ranks, a, b);
    ExpandConcat(files, ranks, a + b, c);
  }

  /** Arguments moved into a response file mean the same, at any position. */
  lemma {:induction false} Substitution(files: Files, ranks: Ranks, name: string,
                                        before: seq<string>, args: seq<string>, after: seq<string>)
    requires Acyclic(files, ranks)
    requires (forall arg :: arg in args ==> PlainWord(arg)) && name in files && files[name] == Join(args)
    ensures Expand(files, ranks, before + ["@" + name] + after) == Expand(files, ranks, before + args + after)
  {
    var at: seq<string> := ["@" + name];
    SplitJoin(args);
    OneFile(files, ranks, name, at);
    ExpandMiddle(files, ranks, before, at, after);
    ExpandMiddle(files, ranks, before, args, after);
  }

  // ----- Any layout -----

  /** Neither white space nor a quote. */
  predicate Ordinary(c: char) { !Separator(c) && c != '"' && c != '\'' }

  predicate Word(s: string) { s != "" && forall i :: 0 <= i < |s| ==> Ordinary(s[i]) }

  /** Words with something before, between and after them. */
  function Laid(seps: seq<string>, words: seq<string>): string
    requires |seps| == |words| + 1
  {
    if words == [] then seps[0] else seps[0] + (words[0] + Laid(seps[1..], words[1..]))
  }

  predicate WellLaid(seps: seq<string>, words: seq<string>) {
    && |seps| == |words| + 1
    && (forall i :: 0 <= i < |seps| ==> Separates(seps[i]) && (0 < i < |words| ==> seps[i] != ""))
    && forall i :: 0 <= i < |words| ==> Word(words[i])
  }

  lemma {:induction false} SkipSeparators(sep: string, rest: string)
    requires Separates(sep)
    ensures SplitWhitespace(sep + rest) == SplitWhitespace(rest)
  {
    if sep == "" {
      assert sep + rest == rest;
    } else {
      assert Separator(sep[0]);
      assert (sep + rest)[1..] == sep[1..] + rest;
      SkipSeparators(sep[1..], rest);
    }
  }

  lemma {:induction false} WordEnds(word: string, rest: string)
    requires forall i :: 0 <= i < |word| ==> Ordinary(word[i])
    requires rest == "" || Separator(rest[0])
    ensures WordLength(word + rest) == |word|
  {
    if word == "" {
      assert word + rest == rest;
    } else {
      assert (word + rest)[1..] == word[1..] + rest;
      WordEnds(word[1..], rest);
    }
  }

  lemma {:induction false} LaidLater(seps: seq<string>, words: seq<string>)
    requires words != [] && WellLaid(seps, words)
    ensures WellLaid(seps[1..], words[1..])
    ensures Laid(seps[1..], words[1..]) == "" || Separator(Laid(seps[1..], words[1..])[0])
  {
    forall i | 0 <= i < |seps| - 1
      ensures Separates(seps[1..][i]) && (0 < i < |words| - 1 ==> seps[1..][i] != "")
    {
      assert seps[1..][i] == seps[i + 1];
    }
    assert Separates(seps[1]);
    if |words| > 1 { assert seps[1] != ""; }
  }

  /** However words are laid out, splitting finds them. */
  lemma {:induction false} SplitLaid(seps: seq<string>, words: seq<string>)
    requires WellLaid(seps, words)
    ensures SplitWhitespace(Laid(seps, words)) == words
    decreases |words|
  {
    if words == [] {
      SkipSeparators(seps[0], "");
      assert seps[0] + "" == seps[0];
    } else {
      var word, later := words[0], Laid(seps[1..], words[1..]);
      LaidLater(seps, words);
      assert Word(word) && Separates(seps[0]);
      SkipSeparators(seps[0], word + later);
      WordEnds(word, later);
      SplitLaid(seps[1..], words[1..]);
      assert (word + later)[0] == word[0] && Ordinary(word[0]);
      assert (word + later)[..|word|] == word && (word + later)[|word|..] == later;
      assert [word] + words[1..] == words;
    }
  }

  lemma {:induction false} LaidUnquoted(seps: seq<string>, words: seq<string>)
    requires WellLaid(seps, words)
    ensures !HasQuote(Laid(seps, words))
    decreases |words|
  {
    assert Separates(seps[0]);
    if words != [] {
      LaidLater(seps, words);
      LaidUnquoted(seps[1..], words[1..]);
      assert Word(words[0]);
    }
  }

  /** Arguments moved into a response file mean the same, in any layout. */
  lemma {:induction false} SubstitutionInAnyLayout(files: Files, ranks: Ranks, name: string, seps: seq<string>,
                                                   before: seq<string>, args: seq<string>, after: seq<string>)
    requires Acyclic(files, ranks)
    requires WellLaid(seps, args) && name in files && files[name] == Laid(seps, args)
    ensures Expand(files, ranks, before + ["@" + name] + after) == Expand(files, ranks, before + args + after)
  {
    var at: seq<string> := ["@" + name];
    SplitLaid(seps, args);
    LaidUnquoted(seps, args);
    OneFile(files, ranks, name, at);
    ExpandMiddle(files, ranks, before, at, after);
    ExpandMiddle(files, ranks, before, args, after);
  }

  /** A file that is missing or has a quote in it is not read. */
  lemma {:induction false} QuotedStays(files: Files, ranks: Ranks, name: string, before: seq<string>,
                                       after: seq<string>)
    requires Acyclic(files, ranks)
    requires name !in files || '"' in files[name] || '\'' in files[name]
    ensures Expand(files, ranks, before + ["@" + name] + after)
         == Expand(files, ranks, before) + ["@" + name] + Expand(files, ranks, after)
  {
    var at: seq<string> := ["@" + name];
    assert at[0][1..] == name && at[1..] == [];
    LiteralsStay(files, ranks, at);
    ExpandMiddle(files, ranks, before, at, after);
  }

  // ----- The iterator -----

  function Reversed(args: seq<string>): (out: seq<string>)
    ensures |out| == |args| && forall i :: 0 <= i < |args| ==> out[i] == args[|args| - 1 - i]
  {
    if args == [] then [] else Reversed(args[1..]) + [args[0]]
  }

  /** How many times the stack will be popped. */
  ghost function Pops(files: Files, ranks: Ranks, args: seq<string>): nat
    requires Acyclic(files, ranks)
    decreases Height(files, ranks, args), |args|
  {
    if args == [] then 0
    else
      HeightBelow(files, ranks, args[1..], Height(files, ranks, args));
      1 + Pops(files, ranks, args[1..]) +
      if Expandable(files, args[0]) then
        HeightBelow(files, ranks, Included(files, args[0]), RankOf(ranks, args[0]));
        Pops(files, ranks, Included(files, args[0]))
      else 0
  }

  lemma {:induction false} PopsConcat(files: Files, ranks: Ranks, a: seq<string>, b: seq<string>)
    requires Acyclic(files, ranks)
    ensures Pops(files, ranks, a + b) == Pops(files, ranks, a) + Pops(files, ranks, b)
    decreases |a|
  {
    if a == [] {
      assert a + b == b;
    } else {
      assert (a + b)[1..] == a[1..] + b;
      PopsConcat(files, ranks, a[1..], b);
    }
  }

  class ExpandIncludeFile {
    const files: Files
    var stack: seq<string>

    constructor (files: Files, args: seq<string>)
      ensures this.files == files && Reversed(stack) == args
    {
      this.files := files;
      stack := Reversed(args);
    }

    /** The arguments still to come out. */
    ghost function Rest(ranks: Ranks): seq<string>
      requires Acyclic(files, ranks)
      reads this
    {
      Expand(files, ranks, Reversed(stack))
    }

    /** Yields the next argument of the depth-first expansion, reading files
        only when they come to the top of the stack. */
    method Next(ghost ranks: Ranks) returns (arg: Option<string>)
      requires Acyclic(files, ranks)
      modifies this
      ensures old(Rest(ranks)) == (if arg.Some? then [arg.value] else []) + Rest(ranks)
      ensures arg.None? ==> Rest(ranks) == []
    {
      while true
        invariant Rest(ranks) == old(Rest(ranks))
        decreases Pops(files, ranks, Reversed(stack))
      {
        if stack == [] { return None; }
        var top := stack[|stack| - 1];
        ghost var below := Reversed(stack[..|stack| - 1]);
        assert Reversed(stack) == [top] + below;
        assert ([top] + below)[1..] == below;
        stack := stack[..|stack| - 1];
        if |top| == 0 || top[0] != '@' { return Some(top); }
        if top[1..] !in files { return Some(top); }
        var contents := files[top[1..]];
        if HasQuote(contents) { return Some(top); }
        var args := SplitWhitespace(contents);
        ExpandConcat(files, ranks, args, below);
        PopsConcat(files, ranks, args, below);
        stack := stack + Reversed(args);
        assert Reversed(stack) == args + below;
      }
    }
  }
}
