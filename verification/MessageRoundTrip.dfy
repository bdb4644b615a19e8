/** Every message that the two sides can send reads back as itself. */
module MessageRoundTrip {
  import opened Options
  import opened Octets
  import opened Wire
  import opened Messages

  // ----- Messages up to their cached sizes -----

  function BareCompile(m: Compile): Compile { m.(cachedSize := 0) }

  function BareRequest(m: ClientRequest): ClientRequest {
    ClientRequest(
      if m.request.None? then None
      else
        match m.request.value
        case CompileRequest(c) => Some(CompileRequest(BareCompile(c)))
        case GetStats(_) => Some(GetStats(EMPTY))
        case Shutdown(_) => Some(Shutdown(EMPTY))
        case ZeroStats(_) => Some(ZeroStats(EMPTY)),
      0)
  }

  function BareStatistics(stats: seq<CacheStatistic>): (bare: seq<CacheStatistic>)
    ensures |bare| == |stats|
  {
    if stats == [] then [] else [stats[0].(cachedSize := 0)] + BareStatistics(stats[1..])
  }

  function BareStats(m: CacheStats): CacheStats { CacheStats(BareStatistics(m.stats), 0) }

  function BareShuttingDown(m: ShuttingDown): ShuttingDown {
    ShuttingDown(if m.stats.None? then None else Some(BareStats(m.stats.value)), 0)
  }

  function BareResponse(m: ServerResponse): ServerResponse {
    ServerResponse(
      if m.response.None? then None
      else
        match m.response.value
        case Stats(s) => Some(Stats(BareStats(s)))
        case GoingDown(s) => Some(GoingDown(BareShuttingDown(s)))
        case Started(_) => Some(Started(EMPTY))
        case Done(f) => Some(Done(f.(cachedSize := 0)))
        case Unhandled(_) => Some(Unhandled(EMPTY))
        case Unrecognized(_) => Some(Unrecognized(EMPTY)),
      0)
  }

  // ----- What can be sent -----

  ghost predicate Utf8(o: Option<Bytes>) { o.Some? ==> ValidUtf8(o.value) }

  ghost predicate CompileText(m: Compile) {
    Utf8(m.cwd) && Utf8(m.exe) && forall arg :: arg in m.command ==> ValidUtf8(arg)
  }

  ghost predicate StatisticText(m: CacheStatistic) {
    Utf8(m.name) && (m.value.Some? && m.value.value.Str? ==> ValidUtf8(m.value.value.str))
  }

  ghost predicate SendableStats(m: CacheStats) {
    forall s :: s in m.stats ==> StatisticText(s) && s.name.Some?
  }

  ghost predicate RequestText(m: ClientRequest) {
    m.request.Some? && m.request.value.CompileRequest? ==> CompileText(m.request.value.compile)
  }

  predicate RequestInitialized(m: ClientRequest) {
    m.request.Some? && m.request.value.CompileRequest? ==> CompileSchema.initialized(m.request.value.compile)
  }

  /** Strings are UTF-8, as every Rust string is, required fields are set and
      the whole fits a 32-bit size. */
  ghost predicate SendableRequest(m: ClientRequest) {
    |EncodeRequest(m)| < U32 && RequestText(m) && RequestInitialized(m)
  }

  ghost predicate SendableResponse(m: ServerResponse) {
    && |EncodeResponse(m)| < U32
    && (m.response.Some? && m.response.value.Stats? ==> SendableStats(m.response.value.stats))
    && (m.response.Some? && m.response.value.GoingDown? ==>
          && m.response.value.shuttingDown.stats.Some?
          && SendableStats(m.response.value.shuttingDown.stats.value))
  }

  // ----- Sizes of parts -----

  /** A written field is no longer than the message it is in. */
  lemma {:induction false} FieldWithin(fs: seq<Field>, f: Field)
    requires f in fs
    ensures |EncodeField(f)| <= |EncodeFields(fs)|
    ensures f.value.Blob? ==> |f.value.bytes| < |EncodeFields(fs)|
  {
    if f != fs[0] { FieldWithin(fs[1..], f); }
  }

  ghost predicate Numbered(fs: seq<Field>) {
    forall f :: f in fs ==> 1 <= f.number <= 6 && (f.value.Number? ==> f.value.n < U64)
  }

  lemma {:induction false} AllWritable(fs: seq<Field>)
    requires Numbered(fs) && |EncodeFields(fs)| < U32
    ensures forall f :: f in fs ==> Writable(f)
  {
    forall f | f in fs ensures Writable(f) { FieldWithin(fs, f); }
  }

  // ----- Round trips -----

  lemma {:induction false} CommandMerges(m: Compile, args: seq<Bytes>)
    requires forall arg :: arg in args ==> ValidUtf8(arg)
    ensures SetAll(CompileSchema, m, Blobs(3, args)) == Ok(m.(command := m.command + args))
    decreases |args|
  {
    if args == [] {
      assert m.command + [] == m.command;
    } else {
      assert args[0] in args;
      var next := m.(command := m.command + [args[0]]);
      CommandMerges(next, args[1..]);
      assert next.command + args[1..] == m.command + args;
    }
  }

  lemma {:induction false} BlobsAt(number: nat, bs: seq<Bytes>)
    ensures forall f :: f in Blobs(number, bs) ==> f.number == number && f.value.Blob?
  {
    if bs != [] { BlobsAt(number, bs[1..]); }
  }

  lemma {:induction false} CompileRoundTrip(m: Compile)
    requires CompileText(m) && |EncodeFields(CompileFields(m))| < U32
    ensures MergeFrom(CompileSchema, CompileSchema.empty, EncodeFields(CompileFields(m))) == Ok(BareCompile(m))
  {
    var fs, e := CompileFields(m), CompileSchema.empty;
    BlobsAt(3, m.command);
    AllWritable(fs);
    MergeWritten(CompileSchema, e, fs);
    var m1, m2 := e.(cwd := m.cwd), e.(cwd := m.cwd, exe := m.exe);
    assert SetAll(CompileSchema, e, OptBlob(1, m.cwd)) == Ok(m1);
    SetAllConcat(CompileSchema, e, OptBlob(1, m.cwd), OptBlob(2, m.exe) + Blobs(3, m.command));
    assert SetAll(CompileSchema, m1, OptBlob(2, m.exe)) == Ok(m2);
    SetAllConcat(CompileSchema, m1, OptBlob(2, m.exe), Blobs(3, m.command));
    CommandMerges(m2, m.command);
    assert [] + m.command == m.command;
  }

  lemma {:induction false} SingleField<M>(schema: Schema<M>, f: Field)
    requires Fits(schema, f)
    ensures MergeFrom(schema, schema.empty, EncodeFields([f])) == schema.merge(schema.empty, f.number, f.value)
  {
    MergeWritten(schema, schema.empty, [f]);
    assert [f][1..] == [];
  }

  /** Client requests round trip, nested compile commands included, and are
      refused when a required field of theirs is missing. */
  lemma {:induction false} RequestOutcome(m: ClientRequest)
    requires |EncodeRequest(m)| < U32 && RequestText(m)
    ensures Parse(RequestSchema, EncodeRequest(m))
         == if RequestInitialized(m) then Ok(BareRequest(m)) else Err(NotInitialized)
  {
    var fs := RequestFields(m);
    if m.request.Some? {
      FieldWithin(fs, fs[0]);
      SingleField(RequestSchema, fs[0]);
      if m.request.value.CompileRequest? { CompileRoundTrip(m.request.value.compile); }
    }
  }

  lemma {:induction false} RequestRoundTrip(m: ClientRequest)
    requires SendableRequest(m)
    ensures Parse(RequestSchema, EncodeRequest(m)) == Ok(BareRequest(m))
  {
    RequestOutcome(m);
  }

  lemma {:induction false} SetOne<M>(schema: Schema<M>, m: M, f: Field)
    ensures SetAll(schema, m, [f]) == schema.merge(m, f.number, f.value)
  {
    assert [f][1..] == [];
  }

  lemma {:induction false} ValueMerges(m: CacheStatistic, value: Option<StatValue>)
    requires value.Some? && value.value.Str? ==> ValidUtf8(value.value.str)
    requires m.value == None
    ensures SetAll(StatisticSchema, m, ValueFields(value)) == Ok(m.(value := value))
  {
    if value.Some? { SetOne(StatisticSchema, m, ValueFields(value)[0]); }
  }

  lemma {:induction false} NameMerges(m: CacheStatistic, name: Option<Bytes>)
    requires Utf8(name) && m.name == None
    ensures SetAll(StatisticSchema, m, OptBlob(1, name)) == Ok(m.(name := name))
  {
    if name.Some? { SetOne(StatisticSchema, m, Field(1, Blob(name.value))); }
  }

  lemma {:induction false} StatisticRoundTrip(m: CacheStatistic)
    requires StatisticText(m) && |EncodeFields(StatisticFields(m))| < U32
    ensures MergeFrom(StatisticSchema, StatisticSchema.empty, EncodeFields(StatisticFields(m)))
         == Ok(m.(cachedSize := 0))
  {
    var e := StatisticSchema.empty;
    AllWritable(StatisticFields(m));
    MergeWritten(StatisticSchema, e, StatisticFields(m));
    NameMerges(e, m.name);
    SetAllConcat(StatisticSchema, e, OptBlob(1, m.name), ValueFields(m.value));
    ValueMerges(e.(name := m.name), m.value);
  }

  lemma {:induction false} StatisticMerges(m: CacheStats, s: CacheStatistic)
    requires StatisticText(s) && s.name.Some? && |EncodeFields(StatisticFields(s))| < U32
    ensures StatsSchema.merge(m, 1, Blob(EncodeFields(StatisticFields(s))))
         == Ok(m.(stats := m.stats + [s.(cachedSize := 0)]))
  {
    StatisticRoundTrip(s);
  }

  function Plus(m: CacheStats, more: seq<CacheStatistic>): CacheStats {
    m.(stats := m.stats + more)
  }

  lemma {:induction false} OneStatistic(m: CacheStats, stats: seq<CacheStatistic>)
    requires stats != [] && StatisticText(stats[0]) && stats[0].name.Some?
    requires |EncodeFields(StatsFields(stats))| < U32
    ensures |EncodeFields(StatsFields(stats[1..]))| < U32
    ensures SetAll(StatsSchema, m, StatsFields(stats))
         == SetAll(StatsSchema, Plus(m, [stats[0].(cachedSize := 0)]), StatsFields(stats[1..]))
  {
    var fs, f := StatsFields(stats), Field(1, Blob(EncodeFields(StatisticFields(stats[0]))));
    assert fs[0] == f && fs[1..] == StatsFields(stats[1..]);
    FieldWithin(fs, f);
    StatisticMerges(m, stats[0]);
  }

  lemma {:induction false} PlusBare(m: CacheStats, stats: seq<CacheStatistic>)
    requires stats != []
    ensures Plus(Plus(m, [stats[0].(cachedSize := 0)]), BareStatistics(stats[1..])) == Plus(m, BareStatistics(stats))
  {
    assert m.stats + [stats[0].(cachedSize := 0)] + BareStatistics(stats[1..]) == m.stats + BareStatistics(stats);
  }

  lemma {:induction false} StatisticsMerge(m: CacheStats, stats: seq<CacheStatistic>)
    requires forall s :: s in stats ==> StatisticText(s) && s.name.Some?
    requires |EncodeFields(StatsFields(stats))| < U32
    ensures SetAll(StatsSchema, m, StatsFields(stats)) == Ok(Plus(m, BareStatistics(stats)))
    decreases |stats|
  {
    if stats == [] {
      assert m.stats + [] == m.stats;
    } else {
      assert stats[0] in stats;
      OneStatistic(m, stats);
      PlusBare(m, stats);
      StatisticsMerge(Plus(m, [stats[0].(cachedSize := 0)]), stats[1..]);
    }
  }

  lemma {:induction false} StatsFieldsAt(stats: seq<CacheStatistic>)
    ensures forall f :: f in StatsFields(stats) ==> f.number == 1 && f.value.Blob?
  {
    if stats != [] { StatsFieldsAt(stats[1..]); }
  }

  lemma {:induction false} StatsRoundTrip(m: CacheStats)
    requires SendableStats(m) && |EncodeFields(StatsFields(m.stats))| < U32
    ensures MergeFrom(StatsSchema, StatsSchema.empty, EncodeFields(StatsFields(m.stats))) == Ok(BareStats(m))
  {
    var fs := StatsFields(m.stats);
    StatsFieldsAt(m.stats);
    AllWritable(fs);
    MergeWritten(StatsSchema, StatsSchema.empty, fs);
    StatisticsMerge(StatsSchema.empty, m.stats);
    assert [] + BareStatistics(m.stats) == BareStatistics(m.stats);
  }

  lemma {:induction false} ShuttingDownRoundTrip(m: ShuttingDown)
    requires m.stats.Some? ==> SendableStats(m.stats.value)
    requires |EncodeFields(ShuttingDownFields(m))| < U32
    ensures MergeFrom(ShuttingDownSchema, ShuttingDownSchema.empty, EncodeFields(ShuttingDownFields(m)))
         == Ok(BareShuttingDown(m))
  {
    var fs := ShuttingDownFields(m);
    if m.stats.Some? {
      FieldWithin(fs, fs[0]);
      SingleField(ShuttingDownSchema, fs[0]);
      StatsRoundTrip(m.stats.value);
    }
  }

  lemma {:induction false} RetcodeMerges(m: CompileFinished, x: int32)
    ensures MergeFinished(m, 1, Number(FromInt32(x))) == Ok(m.(exitStatus := Some(Retcode(x))))
    ensures MergeFinished(m, 2, Number(FromInt32(x))) == Ok(m.(exitStatus := Some(Signal(x))))
  {
    Int32RoundTrip(x);
  }

  lemma {:induction false} StatusMerges(m: CompileFinished, status: Option<ExitStatus>)
    requires m.exitStatus == None
    ensures SetAll(FinishedSchema, m, StatusFields(status)) == Ok(m.(exitStatus := status))
  {
    if status.Some? {
      SetOne(FinishedSchema, m, StatusFields(status)[0]);
      RetcodeMerges(m, if status.value.Retcode? then status.value.retcode else status.value.signal);
    }
  }

  lemma {:induction false} StreamMerges(m: CompileFinished, number: nat, o: Option<Bytes>)
    requires (number == 3 && m.stdout == None) || (number == 4 && m.stderr == None)
    ensures SetAll(FinishedSchema, m, OptBlob(number, o))
         == Ok(if number == 3 then m.(stdout := o) else m.(stderr := o))
  {
    if o.Some? { SetOne(FinishedSchema, m, Field(number, Blob(o.value))); }
  }

  lemma {:induction false} FinishedNumbered(m: CompileFinished)
    ensures Numbered(FinishedFields(m))
  {
    if m.exitStatus.Some? {
      Int32RoundTrip(if m.exitStatus.value.Retcode? then m.exitStatus.value.retcode else m.exitStatus.value.signal);
    }
  }

  lemma {:induction false} SetAllThree<M>(schema: Schema<M>, m: M, a: seq<Field>, b: seq<Field>, c: seq<Field>,
                                          ma: M, mb: M, mc: M)
    requires SetAll(schema, m, a) == Ok(ma) && SetAll(schema, ma, b) == Ok(mb) && SetAll(schema, mb, c) == Ok(mc)
    ensures SetAll(schema, m, a + (b + c)) == Ok(mc)
  {
    SetAllConcat(schema, m, a, b + c);
    SetAllConcat(schema, ma, b, c);
  }

  lemma {:induction false} FinishedMerges(m: CompileFinished)
    ensures SetAll(FinishedSchema, FinishedSchema.empty, FinishedFields(m)) == Ok(m.(cachedSize := 0))
  {
    var e := FinishedSchema.empty;
    var out, err, status := OptBlob(3, m.stdout), OptBlob(4, m.stderr), StatusFields(m.exitStatus);
    var withOut := e.(stdout := m.stdout);
    var withErr := withOut.(stderr := m.stderr);
    var whole := withErr.(exitStatus := m.exitStatus);
    StreamMerges(e, 3, m.stdout);
    StreamMerges(withOut, 4, m.stderr);
    StatusMerges(withErr, m.exitStatus);
    SetAllThree(FinishedSchema, e, out, err, status, withOut, withErr, whole);
  }

  predicate FinishedExpects(f: Field) {
    FinishedSchema.wireType(f.number) == Expects(TypeOf(f.value))
  }

  lemma {:induction false} FinishedExpected(m: CompileFinished)
    ensures forall f :: f in FinishedFields(m) ==> FinishedExpects(f)
  {
    forall f | f in OptBlob(3, m.stdout) || f in OptBlob(4, m.stderr) || f in StatusFields(m.exitStatus)
      ensures FinishedExpects(f)
    {
    }
  }

  lemma {:induction false} FinishedRoundTrip(m: CompileFinished)
    requires |EncodeFields(FinishedFields(m))| < U32
    ensures MergeFrom(FinishedSchema, FinishedSchema.empty, EncodeFields(FinishedFields(m)))
         == Ok(m.(cachedSize := 0))
  {
    var fs := FinishedFields(m);
    FinishedNumbered(m);
    FinishedExpected(m);
    AllWritable(fs);
    forall f | f in fs ensures Fits(FinishedSchema, f) { assert FinishedExpects(f); }
    MergeWritten(FinishedSchema, FinishedSchema.empty, fs);
    FinishedMerges(m);
  }

  /** Server responses round trip: nested and repeated statistics, and negative
      return codes. */
  lemma {:induction false} ResponseRoundTrip(m: ServerResponse)
    requires SendableResponse(m)
    ensures Parse(ResponseSchema, EncodeResponse(m)) == Ok(BareResponse(m))
  {
    var fs := ResponseFields(m);
    if m.response.Some? {
      FieldWithin(fs, fs[0]);
      SingleField(ResponseSchema, fs[0]);
      match m.response.value
      case Stats(s) => StatsRoundTrip(s);
      case GoingDown(s) => ShuttingDownRoundTrip(s);
      case Done(f) => FinishedRoundTrip(f);
      case _ =>
    }
  }
}
