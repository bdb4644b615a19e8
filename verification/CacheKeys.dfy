/** What a cache key depends on: the compiler, the preprocessed source, and the
    common arguments one after the other, without the object's file name. */
module CacheKeys {
  import opened CompilerArguments
  import opened Options
  import opened Octets
  import opened PathFacts
  import opened CachedCompile

  // ----- The object's file name -----

  lemma {:induction false} OutputFileIsName(args: ParsedArguments, dir: string, name: string)
    requires PlainName(name) && OBJ in args.outputs
    requires args.outputs[OBJ] == dir + "/" + name || args.outputs[OBJ] == name
    ensures OutputFile(args) == name
  {
    FileNameOf(dir, name);
  }

  // ----- The hashed arguments -----

  lemma {:induction false} ConcatOne(arg: string)
    ensures Concat([arg]) == arg
  {
    assert [arg][1..] == [];
    assert arg + "" == arg;
  }

  lemma {:induction false} ConcatBoth(a: seq<string>, b: seq<string>)
    ensures Concat(a + b) == Concat(a) + Concat(b)
  {
    if a == [] {
      assert a + b == b;
    } else {
      assert (a + b)[1..] == a[1..] + b;
      ConcatBoth(a[1..], b);
    }
  }

  lemma {:induction false} RemoveNone(args: seq<string>, arg: string)
    requires arg !in args
    ensures Remove(args, arg) == args
  {
    if args != [] {
      RemoveNone(args[1..], arg);
      assert args == [args[0]] + args[1..];
    }
  }

  lemma {:induction false} RemoveBoth(a: seq<string>, b: seq<string>, arg: string)
    ensures Remove(a + b, arg) == Remove(a, arg) + Remove(b, arg)
  {
    if a == [] {
      assert a + b == b;
    } else {
      assert (a + b)[1..] == a[1..] + b;
      RemoveBoth(a[1..], b, arg);
    }
  }

  // ----- The key -----

  /** No two different inputs have one hash. */
  ghost predicate Injective(hash: (string, string, Bytes) -> Key) {
    forall d, a, p, d', a', p' :: hash(d, a, p) == hash(d', a', p') ==> d == d' && a == a' && p == p'
  }

  predicate NamesObject(r: Request) { OutputFile(r.args) in r.args.commonArgs }

  /** Equal keys mean the same compiler, the same preprocessed source and the
      same text of common arguments. */
  lemma {:induction false} EqualKeys(tc: Toolchain, r: Request, pre: Bytes, r': Request, pre': Bytes)
    requires Injective(tc.hash) && KeyOf(tc, r, pre) == KeyOf(tc, r', pre')
    ensures r.digest == r'.digest && pre == pre'
    ensures !NamesObject(r) && !NamesObject(r') ==> Concat(r.args.commonArgs) == Concat(r'.args.commonArgs)
  {
    if !NamesObject(r) && !NamesObject(r') {
      RemoveNone(r.args.commonArgs, OutputFile(r.args));
      RemoveNone(r'.args.commonArgs, OutputFile(r'.args));
    }
  }

  /** The other way: these three are all that the key depends on. */
  lemma {:induction false} SameKeys(tc: Toolchain, r: Request, r': Request, pre: Bytes)
    requires r.digest == r'.digest && !NamesObject(r) && !NamesObject(r')
    requires Concat(r.args.commonArgs) == Concat(r'.args.commonArgs)
    ensures KeyOf(tc, r, pre) == KeyOf(tc, r', pre)
  {
    RemoveNone(r.args.commonArgs, OutputFile(r.args));
    RemoveNone(r'.args.commonArgs, OutputFile(r'.args));
  }

  /** Two options of one length, such as `-O0` and `-O2`, at one place among the
      common arguments, make two keys. */
  lemma {:induction false} OptionsMatter(tc: Toolchain, r: Request, pre: Bytes, r': Request, pre': Bytes,
                                         front: seq<string>, x: string, y: string, rest: seq<string>)
    requires Injective(tc.hash) && !NamesObject(r) && !NamesObject(r')
    requires r.args.commonArgs == front + [x] + rest && r'.args.commonArgs == front + [y] + rest
    requires |x| == |y| && x != y
    ensures KeyOf(tc, r, pre) != KeyOf(tc, r', pre')
  {
    ConcatThree(front, x, rest);
    ConcatThree(front, y, rest);
    var f := Concat(front);
    assert (f + x + Concat(rest))[|f|..|f| + |x|] == x && (f + y + Concat(rest))[|f|..|f| + |y|] == y;
    if KeyOf(tc, r, pre) == KeyOf(tc, r', pre') { EqualKeys(tc, r, pre, r', pre'); }
  }

  lemma {:induction false} ConcatThree(front: seq<string>, x: string, rest: seq<string>)
    ensures Concat(front + [x] + rest) == Concat(front) + x + Concat(rest)
  {
    ConcatBoth(front + [x], rest);
    ConcatBoth(front, [x]);
    ConcatOne(x);
  }

  /** The object's file name among the common arguments makes no difference. */
  lemma {:induction false} ObjectNameIsNoMatter(tc: Toolchain, r: Request, pre: Bytes, front: seq<string>,
                                                rest: seq<string>)
    requires r.args.commonArgs == front + rest
    ensures KeyOf(tc, r.(args := r.args.(commonArgs := front + [OutputFile(r.args)] + rest)), pre) == KeyOf(tc, r, pre)
  {
    var out := OutputFile(r.args);
    RemoveBoth(front + [out], rest, out);
    RemoveBoth(front, [out], out);
    RemoveBoth(front, rest, out);
    assert [out][1..] == [] && Remove([out], out) == [];
    assert Remove(front, out) + [] == Remove(front, out);
  }

  // ----- Output files -----

  /** A relative output is in the request's directory. */
  lemma {:induction false} SameFileSameDirectory(r: Request, r': Request, name: string, name': string)
    requires name in r.args.outputs && name' in r'.args.outputs && r.args.outputs[name] == r'.args.outputs[name']
    ensures r.PathOf(name) == r'.PathOf(name')
       <==> r.cwd == r'.cwd || (r.args.outputs[name] != "" && r.args.outputs[name][0] == '/')
  {
    var path := r.args.outputs[name];
    if path == "" || path[0] != '/' {
      if r.cwd + "/" + path == r'.cwd + "/" + path {
        assert |r.cwd| == |r'.cwd|;
        assert (r.cwd + "/" + path)[..|r.cwd|] == r.cwd && (r'.cwd + "/" + path)[..|r'.cwd|] == r'.cwd;
      }
    }
  }

  /** A relative path is one in the working directory. */
  lemma {:induction false} RelativeOrAbsolute(r: Request, r': Request, name: string, name': string)
    requires name in r.args.outputs && name' in r'.args.outputs
    requires r.cwd != "" && r.cwd[0] == '/' && (r.args.outputs[name] == "" || r.args.outputs[name][0] != '/')
    requires r'.args.outputs[name'] == r.cwd + "/" + r.args.outputs[name]
    ensures r.PathOf(name) == r'.PathOf(name')
  {
    assert (r.cwd + "/" + r.args.outputs[name])[0] == r.cwd[0];
  }
}
