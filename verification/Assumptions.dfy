/** The hypotheses of cache transparency can be met, by compilers that leave
    their preprocessed source in every output file. */
module Assumptions {
  import opened CompilerArguments
  import opened Options
  import opened Octets
  import opened CachedCompile

  function Chars(bytes: Bytes): (s: string)
    ensures |s| == |bytes| && forall i :: 0 <= i < |s| ==> s[i] as int == bytes[i]
  {
    seq(|bytes|, i requires 0 <= i < |bytes| => bytes[i] as char)
  }

  function EchoRun(r: Request, pre: Bytes): Compiled {
    Compiled(Output(Some(0), [], pre), map name | name in r.args.outputs :: pre)
  }

  function Echo(arises: (Request, Bytes) -> bool): Toolchain {
    Toolchain((digest, args, pre) => Chars(pre), (r, pre) => EchoRun(r, pre), false, arises)
  }

  lemma {:induction false} CharsInjective(a: Bytes, b: Bytes)
    requires Chars(a) == Chars(b)
    ensures a == b
  {
    forall i | 0 <= i < |a| ensures a[i] == b[i] {
      assert a[i] == Chars(a)[i] as int == Chars(b)[i] as int == b[i];
    }
  }

  ghost predicate SourceFixesOutputs(arises: (Request, Bytes) -> bool) {
    forall r: Request, r': Request, pre ::
      arises(r, pre) && arises(r', pre) ==> r.args.outputs.Keys == r'.args.outputs.Keys
  }

  /** The hypotheses hold whatever arises, as long as one source is always
      compiled to outputs of the same names. */
  lemma {:induction false} EchoMeetsThem(arises: (Request, Bytes) -> bool)
    requires SourceFixesOutputs(arises)
    ensures Produces(Echo(arises)) && KeyDetermines(Echo(arises))
  {
    var tc := Echo(arises);
    forall r: Request, pre: Bytes, r': Request, pre': Bytes
      | tc.arises(r, pre) && tc.arises(r', pre') && KeyOf(tc, r, pre) == KeyOf(tc, r', pre')
      ensures tc.run(r, pre) == tc.run(r', pre') && r.args.outputs.Keys == r'.args.outputs.Keys
    {
      CharsInjective(pre, pre');
    }
  }
}
