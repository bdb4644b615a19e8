/** The generated code at work: `compute_size` leaving sizes in the messages,
    writers that trust those sizes, and the `merge_from` loop. */
module MessageStreams {
  import opened Options
  import opened Octets
  import opened Wire
  import opened Messages

  class CodedOutputStream {
    var bytes: Bytes

    constructor ()
      ensures bytes == []
    {
      bytes := [];
    }

    method WriteRawVarint(n: nat)
      modifies this
      ensures bytes == old(bytes) + EncodeVarint(n)
    {
      bytes := bytes + EncodeVarint(n);
    }

    method WriteTag(number: nat, t: WireType)
      modifies this
      ensures bytes == old(bytes) + EncodeTag(number, t)
    {
      WriteRawVarint(number * 8 + WireNumber(t));
    }

    method WriteBytes(number: nat, value: Bytes)
      modifies this
      ensures bytes == old(bytes) + EncodeField(Field(number, Blob(value)))
    {
      WriteTag(number, LengthDelimited);
      WriteRawVarint(|value|);
      bytes := bytes + value;
    }

    method WriteNumber(number: nat, n: nat)
      modifies this
      ensures bytes == old(bytes) + EncodeField(Field(number, Number(n)))
    {
      WriteTag(number, VarintType);
      WriteRawVarint(n);
    }
  }

  class CodedInputStream {
    var rest: Bytes

    constructor (bytes: Bytes)
      ensures rest == bytes
    {
      rest := bytes;
    }

    /** One turn of a `merge_from` loop. */
    method MergeNext<M>(schema: Schema<M>, m: M) returns (r: Result<M>)
      modifies this
      ensures MergeField(schema, m, old(rest)).Ok? ==>
                r.Ok? && MergeField(schema, m, old(rest)) == Ok((r.value, rest))
      ensures MergeField(schema, m, old(rest)).Err? ==> r == Err(MergeField(schema, m, old(rest)).error)
    {
      var tag := ReadTag(rest);
      if tag.Err? { return Err(tag.error); }
      var (field, t, after) := tag.value;
      rest := after;
      var known := schema.wireType(field);
      if known.Expects? && t != known.t { return Err(UnexpectedWireType); }
      var value := ReadValue(t, rest);
      if value.Err? { return Err(value.error); }
      rest := value.value.1;
      r := if known.Expects? then schema.merge(m, field, value.value.0) else Ok(m);
    }

    /** `while !is.eof()`. */
    method MergeAll<M>(schema: Schema<M>, start: M) returns (r: Result<M>)
      modifies this
      ensures r == MergeFrom(schema, start, old(rest))
      ensures r.Ok? ==> rest == []
    {
      var m := start;
      while rest != []
        invariant MergeFrom(schema, m, rest) == MergeFrom(schema, start, old(rest))
        decreases |rest|
      {
        var next := MergeNext(schema, m);
        if next.Err? { return Err(next.error); }
        m := next.value;
      }
      r := Ok(m);
    }

    /** A whole message, checked for its required fields. */
    method ParseAll<M>(schema: Schema<M>) returns (r: Result<M>)
      modifies this
      ensures r == Parse(schema, old(rest))
    {
      r := MergeAll(schema, schema.empty);
      if r.Ok? && !schema.initialized(r.value) { r := Err(NotInitialized); }
    }
  }

  // ----- Messages as `compute_size` leaves them -----

  function SizedCompile(m: Compile): Compile {
    m.(cachedSize := |EncodeFields(CompileFields(m))|)
  }

  function SizedRequest(m: ClientRequest): ClientRequest {
    ClientRequest(
      if m.request.None? then None
      else
        match m.request.value
        case CompileRequest(c) => Some(CompileRequest(SizedCompile(c)))
        case GetStats(_) => Some(GetStats(NoFields(0)))
        case Shutdown(_) => Some(Shutdown(NoFields(0)))
        case ZeroStats(_) => Some(ZeroStats(NoFields(0))),
      |EncodeRequest(m)|)
  }

  function SizedStatistic(m: CacheStatistic): CacheStatistic {
    m.(cachedSize := |EncodeFields(StatisticFields(m))|)
  }

  function SizedStatistics(stats: seq<CacheStatistic>): seq<CacheStatistic> {
    if stats == [] then [] else [SizedStatistic(stats[0])] + SizedStatistics(stats[1..])
  }

  function SizedStats(m: CacheStats): CacheStats {
    CacheStats(SizedStatistics(m.stats), |EncodeFields(StatsFields(m.stats))|)
  }

  function SizedShuttingDown(m: ShuttingDown): ShuttingDown {
    ShuttingDown(if m.stats.None? then None else Some(SizedStats(m.stats.value)),
                 |EncodeFields(ShuttingDownFields(m))|)
  }

  function SizedFinished(m: CompileFinished): CompileFinished {
    m.(cachedSize := |EncodeFields(FinishedFields(m))|)
  }

  function SizedResponse(m: ServerResponse): ServerResponse {
    ServerResponse(
      if m.response.None? then None
      else
        match m.response.value
        case Stats(s) => Some(Stats(SizedStats(s)))
        case GoingDown(s) => Some(GoingDown(SizedShuttingDown(s)))
        case Started(_) => Some(Started(NoFields(0)))
        case Done(f) => Some(Done(SizedFinished(f)))
        case Unhandled(_) => Some(Unhandled(NoFields(0)))
        case Unrecognized(_) => Some(Unrecognized(NoFields(0))),
      |EncodeResponse(m)|)
  }

  // ----- compute_size -----

  /** `string_size`, `bytes_size` and the size of a nested message, for the
      one-byte tags of these messages. */
  function BlobSize(len: nat): nat { 1 + VarintSize32(len) + len }

  lemma {:induction false} FieldSizes(f: Field)
    requires 1 <= f.number <= 6
    ensures f.value.Blob? && |f.value.bytes| < U32 ==> |EncodeField(f)| == BlobSize(|f.value.bytes|)
    ensures f.value.Number? && f.value.n < U64 ==> |EncodeField(f)| == 1 + VarintSize64(f.value.n)
  {
    match f.value
    case Number(n) => if n < U64 { VarintSizes(n); }
    case Blob(bytes) => if |bytes| < U32 { VarintSizes(|bytes|); }
  }

  lemma {:induction false} OptBlobSize(number: nat, o: Option<Bytes>)
    requires 1 <= number <= 6 && (o.Some? ==> |o.value| < U32)
    ensures |EncodeFields(OptBlob(number, o))| == if o.Some? then BlobSize(|o.value|) else 0
  {
    if o.Some? {
      FieldSizes(Field(number, Blob(o.value)));
      assert OptBlob(number, o)[1..] == [];
    }
  }

  lemma {:induction false} BlobsAppend(number: nat, bs: seq<Bytes>, b: Bytes)
    ensures EncodeFields(Blobs(number, bs + [b]))
         == EncodeFields(Blobs(number, bs)) + EncodeField(Field(number, Blob(b)))
  {
    if bs == [] {
      assert [b][1..] == [] && bs + [b] == [b];
      assert Blobs(number, [b])[1..] == [];
    } else {
      assert (bs + [b])[1..] == bs[1..] + [b];
      BlobsAppend(number, bs[1..], b);
      assert Blobs(number, bs + [b])[1..] == Blobs(number, bs[1..] + [b]);
      assert Blobs(number, bs)[1..] == Blobs(number, bs[1..]);
    }
  }

  lemma {:induction false} CompileParts(m: Compile)
    ensures EncodeFields(CompileFields(m))
         == EncodeFields(OptBlob(1, m.cwd)) + (EncodeFields(OptBlob(2, m.exe)) + EncodeFields(Blobs(3, m.command)))
  {
    EncodeFieldsConcat(OptBlob(1, m.cwd), OptBlob(2, m.exe) + Blobs(3, m.command));
    EncodeFieldsConcat(OptBlob(2, m.exe), Blobs(3, m.command));
  }

  lemma {:induction false} BlobsHold(number: nat, bs: seq<Bytes>, i: nat)
    requires i < |bs|
    ensures |bs[i]| < |EncodeFields(Blobs(number, bs))|
  {
    assert Blobs(number, bs)[1..] == Blobs(number, bs[1..]);
    if i > 0 { BlobsHold(number, bs[1..], i - 1); }
  }

  lemma {:induction false} BlobsGrow(number: nat, bs: seq<Bytes>, i: nat)
    requires i < |bs|
    ensures EncodeFields(Blobs(number, bs[..i + 1]))
         == EncodeFields(Blobs(number, bs[..i])) + EncodeField(Field(number, Blob(bs[i])))
  {
    BlobsAppend(number, bs[..i], bs[i]);
    assert bs[..i] + [bs[i]] == bs[..i + 1];
  }

  /** The size a loop turn adds for one command line argument. */
  lemma {:induction false} CommandStep(command: seq<Bytes>, i: nat)
    requires i < |command| && |EncodeFields(Blobs(3, command))| < U32
    ensures |EncodeFields(Blobs(3, command[..i + 1]))|
         == |EncodeFields(Blobs(3, command[..i]))| + BlobSize(|command[i]|)
  {
    BlobsHold(3, command, i);
    var f := Field(3, Blob(command[i]));
    assert |EncodeField(f)| == BlobSize(|command[i]|) by { FieldSizes(f); }
    BlobsGrow(3, command, i);
  }

  method CommandSize(command: seq<Bytes>) returns (size: nat)
    requires |EncodeFields(Blobs(3, command))| < U32
    ensures size == |EncodeFields(Blobs(3, command))|
  {
    size := 0;
    for i := 0 to |command|
      invariant size == |EncodeFields(Blobs(3, command[..i]))|
    {
      CommandStep(command, i);
      size := size + BlobSize(|command[i]|);
    }
    assert command[..|command|] == command;
  }

  method OptSize(number: nat, o: Option<Bytes>) returns (size: nat)
    requires 1 <= number <= 6 && |EncodeFields(OptBlob(number, o))| < U32
    ensures size == |EncodeFields(OptBlob(number, o))|
  {
    if o.Some? { FieldBelow(number, o.value); }
    OptBlobSize(number, o);
    size := if o.Some? then BlobSize(|o.value|) else 0;
  }

  method ComputeCompileSize(m: Compile) returns (size: nat, sized: Compile)
    requires |EncodeFields(CompileFields(m))| < U32
    ensures size == |EncodeFields(CompileFields(m))| && sized == SizedCompile(m)
  {
    CompileParts(m);
    var cwd := OptSize(1, m.cwd);
    var exe := OptSize(2, m.exe);
    var command := CommandSize(m.command);
    size := cwd + exe + command;
    sized := m.(cachedSize := size);
  }

  lemma {:induction false} FieldBelow(number: nat, b: Bytes)
    ensures |b| < |EncodeFields([Field(number, Blob(b))])|
    ensures OptBlob(number, Some(b)) == [Field(number, Blob(b))]
  {
    assert [Field(number, Blob(b))][1..] == [];
  }

  lemma {:induction false} NestedSize(number: nat, bytes: Bytes)
    requires 1 <= number <= 6 && |bytes| < U32
    ensures |EncodeFields([Field(number, Blob(bytes))])| == BlobSize(|bytes|)
  {
    FieldSizes(Field(number, Blob(bytes)));
    assert [Field(number, Blob(bytes))][1..] == [];
  }

  lemma {:induction false} NumberSize(number: nat, n: nat)
    requires 1 <= number <= 6 && n < U64
    ensures |EncodeFields([Field(number, Number(n))])| == 1 + VarintSize64(n)
  {
    FieldSizes(Field(number, Number(n)));
    assert [Field(number, Number(n))][1..] == [];
  }

  method ComputeRequestSize(m: ClientRequest) returns (size: nat, sized: ClientRequest)
    requires |EncodeRequest(m)| < U32
    ensures size == |EncodeRequest(m)| && sized == SizedRequest(m)
  {
    if m.request.None? { return 0, ClientRequest(None, 0); }
    match m.request.value
    case CompileRequest(c) =>
      FieldBelow(1, EncodeFields(CompileFields(c)));
      NestedSize(1, EncodeFields(CompileFields(c)));
      var len, nested := ComputeCompileSize(c);
      size := BlobSize(len);
      sized := ClientRequest(Some(CompileRequest(nested)), size);
    case GetStats(_) =>
      NestedSize(2, []);
      size := BlobSize(0);
      sized := ClientRequest(Some(GetStats(NoFields(0))), size);
    case Shutdown(_) =>
      NestedSize(3, []);
      size := BlobSize(0);
      sized := ClientRequest(Some(Shutdown(NoFields(0))), size);
    case ZeroStats(_) =>
      NestedSize(4, []);
      size := BlobSize(0);
      sized := ClientRequest(Some(ZeroStats(NoFields(0))), size);
  }

  method ComputeStatisticSize(m: CacheStatistic) returns (size: nat, sized: CacheStatistic)
    requires |EncodeFields(StatisticFields(m))| < U32
    ensures size == |EncodeFields(StatisticFields(m))| && sized == SizedStatistic(m)
  {
    EncodeFieldsConcat(OptBlob(1, m.name), ValueFields(m.value));
    size := OptSize(1, m.name);
    match m.value {
      case None =>
      case Some(Count(n)) =>
        NumberSize(2, n);
        size := size + (1 + VarintSize64(n));
      case Some(Str(s)) =>
        FieldBelow(3, s);
        NestedSize(3, s);
        size := size + BlobSize(|s|);
      case Some(Size(n)) =>
        NumberSize(4, n);
        size := size + (1 + VarintSize64(n));
    }
    sized := m.(cachedSize := size);
  }

  lemma {:induction false} StatsAppend(stats: seq<CacheStatistic>, s: CacheStatistic)
    ensures StatsFields(stats + [s]) == StatsFields(stats) + [Field(1, Blob(EncodeFields(StatisticFields(s))))]
    ensures SizedStatistics(stats + [s]) == SizedStatistics(stats) + [SizedStatistic(s)]
  {
    if stats == [] {
      assert stats + [s] == [s] && [s][1..] == [];
    } else {
      assert (stats + [s])[1..] == stats[1..] + [s];
      StatsAppend(stats[1..], s);
    }
  }

  lemma {:induction false} EncodeOne(f: Field)
    ensures EncodeFields([f]) == EncodeField(f)
  {
    assert [f][1..] == [];
  }

  lemma {:induction false} StatsEncodeMore(stats: seq<CacheStatistic>, s: CacheStatistic, more: seq<CacheStatistic>)
    requires more == stats + [s]
    ensures EncodeFields(StatsFields(more))
         == EncodeFields(StatsFields(stats)) + EncodeField(Field(1, Blob(EncodeFields(StatisticFields(s)))))
    ensures SizedStatistics(more) == SizedStatistics(stats) + [SizedStatistic(s)]
  {
    var f := Field(1, Blob(EncodeFields(StatisticFields(s))));
    StatsAppend(stats, s);
    EncodeFieldsConcat(StatsFields(stats), [f]);
    EncodeOne(f);
  }

  lemma {:induction false} StatsPrefix(stats: seq<CacheStatistic>, i: nat)
    requires i < |stats|
    ensures |EncodeFields(StatisticFields(stats[i]))| < |EncodeFields(StatsFields(stats))|
  {
    assert StatsFields(stats)[1..] == StatsFields(stats[1..]);
    if i > 0 { StatsPrefix(stats[1..], i - 1); }
  }

  lemma {:induction false} StatsGrow(stats: seq<CacheStatistic>, i: nat)
    requires i < |stats|
    ensures EncodeFields(StatsFields(stats[..i + 1]))
         == EncodeFields(StatsFields(stats[..i])) + EncodeField(Field(1, Blob(EncodeFields(StatisticFields(stats[i])))))
    ensures SizedStatistics(stats[..i + 1]) == SizedStatistics(stats[..i]) + [SizedStatistic(stats[i])]
  {
    StatsEncodeMore(stats[..i], stats[i], stats[..i + 1]);
  }

  lemma {:induction false} StatsStep(stats: seq<CacheStatistic>, i: nat)
    requires i < |stats| && |EncodeFields(StatsFields(stats))| < U32
    ensures |EncodeFields(StatisticFields(stats[i]))| < U32
    ensures |EncodeFields(StatsFields(stats[..i + 1]))|
         == |EncodeFields(StatsFields(stats[..i]))| + BlobSize(|EncodeFields(StatisticFields(stats[i]))|)
  {
    StatsPrefix(stats, i);
    var nested := EncodeFields(StatisticFields(stats[i]));
    var f := Field(1, Blob(nested));
    assert |EncodeField(f)| == BlobSize(|nested|) by { FieldSizes(f); }
    StatsGrow(stats, i);
  }

  method ComputeStatsSize(m: CacheStats) returns (size: nat, sized: CacheStats)
    requires |EncodeFields(StatsFields(m.stats))| < U32
    ensures size == |EncodeFields(StatsFields(m.stats))| && sized == SizedStats(m)
  {
    size := 0;
    var stats := [];
    for i := 0 to |m.stats|
      invariant size == |EncodeFields(StatsFields(m.stats[..i]))|
      invariant stats == SizedStatistics(m.stats[..i])
    {
      StatsStep(m.stats, i);
      StatsGrow(m.stats, i);
      var len, s := ComputeStatisticSize(m.stats[i]);
      size := size + BlobSize(len);
      stats := stats + [s];
    }
    assert m.stats[..|m.stats|] == m.stats;
    sized := CacheStats(stats, size);
  }

  method ComputeShuttingDownSize(m: ShuttingDown) returns (size: nat, sized: ShuttingDown)
    requires |EncodeFields(ShuttingDownFields(m))| < U32
    ensures size == |EncodeFields(ShuttingDownFields(m))| && sized == SizedShuttingDown(m)
  {
    if m.stats.None? { return 0, ShuttingDown(None, 0); }
    FieldBelow(1, EncodeFields(StatsFields(m.stats.value.stats)));
    NestedSize(1, EncodeFields(StatsFields(m.stats.value.stats)));
    var len, stats := ComputeStatsSize(m.stats.value);
    size := BlobSize(len);
    sized := ShuttingDown(Some(stats), size);
  }

  method ComputeFinishedSize(m: CompileFinished) returns (size: nat, sized: CompileFinished)
    requires |EncodeFields(FinishedFields(m))| < U32
    ensures size == |EncodeFields(FinishedFields(m))| && sized == SizedFinished(m)
  {
    var out, err, status := OptBlob(3, m.stdout), OptBlob(4, m.stderr), StatusFields(m.exitStatus);
    EncodeFieldsConcat(out, err + status);
    EncodeFieldsConcat(err, status);
    var outSize := OptSize(3, m.stdout);
    var errSize := OptSize(4, m.stderr);
    size := outSize + errSize;
    match m.exitStatus {
      case None =>
      case Some(Retcode(x)) =>
        Int32RoundTrip(x);
        NumberSize(1, FromInt32(x));
        size := size + (1 + VarintSize64(FromInt32(x)));
      case Some(Signal(x)) =>
        Int32RoundTrip(x);
        NumberSize(2, FromInt32(x));
        size := size + (1 + VarintSize64(FromInt32(x)));
    }
    sized := m.(cachedSize := size);
  }

  method ComputeResponseSize(m: ServerResponse) returns (size: nat, sized: ServerResponse)
    requires |EncodeResponse(m)| < U32
    ensures size == |EncodeResponse(m)| && sized == SizedResponse(m)
  {
    if m.response.None? { return 0, ServerResponse(None, 0); }
    ghost var nested := ResponseFields(m)[0].value.bytes;
    FieldBelow(ResponseFields(m)[0].number, nested);
    NestedSize(ResponseFields(m)[0].number, nested);
    match m.response.value
    case Stats(s) =>
      var len, stats := ComputeStatsSize(s);
      size := BlobSize(len);
      sized := ServerResponse(Some(Stats(stats)), size);
    case GoingDown(s) =>
      var len, down := ComputeShuttingDownSize(s);
      size := BlobSize(len);
      sized := ServerResponse(Some(GoingDown(down)), size);
    case Started(_) =>
      size := BlobSize(0);
      sized := ServerResponse(Some(Started(NoFields(0))), size);
    case Done(f) =>
      var len, finished := ComputeFinishedSize(f);
      size := BlobSize(len);
      sized := ServerResponse(Some(Done(finished)), size);
    case Unhandled(_) =>
      size := BlobSize(0);
      sized := ServerResponse(Some(Unhandled(NoFields(0))), size);
    case Unrecognized(_) =>
      size := BlobSize(0);
      sized := ServerResponse(Some(Unrecognized(NoFields(0))), size);
  }

  // ----- write_to_with_cached_sizes -----

  method WriteOpt(os: CodedOutputStream, number: nat, o: Option<Bytes>)
    modifies os
    ensures os.bytes == old(os.bytes) + EncodeFields(OptBlob(number, o))
  {
    if o.Some? {
      os.WriteBytes(number, o.value);
      assert OptBlob(number, o)[1..] == [];
    }
  }

  /** One turn of the loop over the command line. */
  method WriteArgument(os: CodedOutputStream, command: seq<Bytes>, i: nat, ghost before: Bytes)
    requires i < |command| && os.bytes == before + EncodeFields(Blobs(3, command[..i]))
    modifies os
    ensures os.bytes == before + EncodeFields(Blobs(3, command[..i + 1]))
  {
    ArgumentWritten(before, command, i);
    os.WriteBytes(3, command[i]);
  }

  lemma {:induction false} ArgumentWritten(before: Bytes, command: seq<Bytes>, i: nat)
    requires i < |command|
    ensures before + EncodeFields(Blobs(3, command[..i])) + EncodeField(Field(3, Blob(command[i])))
         == before + EncodeFields(Blobs(3, command[..i + 1]))
  {
    BlobsGrow(3, command, i);
    Assoc3(before, EncodeFields(Blobs(3, command[..i])), EncodeField(Field(3, Blob(command[i]))));
  }

  lemma {:induction false} Assoc3(a: Bytes, b: Bytes, c: Bytes)
    ensures a + b + c == a + (b + c)
  {
  }

  method WriteCommand(os: CodedOutputStream, command: seq<Bytes>)
    modifies os
    ensures os.bytes == old(os.bytes) + EncodeFields(Blobs(3, command))
  {
    for i := 0 to |command|
      invariant os.bytes == old(os.bytes) + EncodeFields(Blobs(3, command[..i]))
    {
      WriteArgument(os, command, i, old(os.bytes));
    }
    assert command[..|command|] == command;
  }

  method WriteCompile(os: CodedOutputStream, m: Compile)
    modifies os
    ensures os.bytes == old(os.bytes) + EncodeFields(CompileFields(m))
  {
    WriteOpt(os, 1, m.cwd);
    WriteOpt(os, 2, m.exe);
    WriteCommand(os, m.command);
    Assoc(old(os.bytes), EncodeFields(OptBlob(1, m.cwd)), EncodeFields(OptBlob(2, m.exe)),
          EncodeFields(Blobs(3, m.command)));
    CompileParts(m);
  }

  lemma {:induction false} Assoc(a: Bytes, b: Bytes, c: Bytes, d: Bytes)
    ensures a + b + c + d == a + (b + (c + d))
  {
  }

  /** The header of a nested message: its length prefix is the cached size. */
  method WriteNestedHeader(os: CodedOutputStream, number: nat, cachedSize: nat, ghost nested: Bytes)
    requires cachedSize == |nested|
    modifies os
    ensures os.bytes + nested == old(os.bytes) + EncodeFields([Field(number, Blob(nested))])
  {
    os.WriteTag(number, LengthDelimited);
    os.WriteRawVarint(cachedSize);
    assert [Field(number, Blob(nested))][1..] == [];
  }

  /** With the sizes that `compute_size` left, every length prefix counts the
      bytes that follow it, and the whole is the message's encoding. */
  method WriteRequest(os: CodedOutputStream, m: ClientRequest)
    requires m == SizedRequest(m)
    modifies os
    ensures os.bytes == old(os.bytes) + EncodeRequest(m)
  {
    if m.request.None? { return; }
    match m.request.value
    case CompileRequest(c) =>
      WriteNestedHeader(os, 1, c.cachedSize, EncodeFields(CompileFields(c)));
      WriteCompile(os, c);
    case GetStats(e) => WriteNestedHeader(os, 2, e.cachedSize, []);
    case Shutdown(e) => WriteNestedHeader(os, 3, e.cachedSize, []);
    case ZeroStats(e) => WriteNestedHeader(os, 4, e.cachedSize, []);
  }

  method WriteValue(os: CodedOutputStream, value: Option<StatValue>)
    modifies os
    ensures os.bytes == old(os.bytes) + EncodeFields(ValueFields(value))
  {
    match value
    case None =>
    case Some(Count(n)) =>
      os.WriteNumber(2, n);
      assert ValueFields(value)[1..] == [];
    case Some(Str(s)) =>
      os.WriteBytes(3, s);
      assert ValueFields(value)[1..] == [];
    case Some(Size(n)) =>
      os.WriteNumber(4, n);
      assert ValueFields(value)[1..] == [];
  }

  method WriteStatistic(os: CodedOutputStream, m: CacheStatistic)
    modifies os
    ensures os.bytes == old(os.bytes) + EncodeFields(StatisticFields(m))
  {
    StatisticParts(old(os.bytes), m);
    WriteOpt(os, 1, m.name);
    WriteValue(os, m.value);
  }

  lemma {:induction false} StatisticParts(before: Bytes, m: CacheStatistic)
    ensures before + EncodeFields(OptBlob(1, m.name)) + EncodeFields(ValueFields(m.value))
         == before + EncodeFields(StatisticFields(m))
  {
    EncodeFieldsConcat(OptBlob(1, m.name), ValueFields(m.value));
    Assoc3(before, EncodeFields(OptBlob(1, m.name)), EncodeFields(ValueFields(m.value)));
  }

  lemma {:induction false} SizedAt(stats: seq<CacheStatistic>, i: nat)
    requires i < |stats|
    ensures |SizedStatistics(stats)| == |stats| && SizedStatistics(stats)[i] == SizedStatistic(stats[i])
  {
    if i > 0 {
      SizedAt(stats[1..], i - 1);
    } else if |stats| > 1 {
      SizedAt(stats[1..], 0);
    }
  }

  /** One nested message of the list, as a field of its own. */
  method WriteNestedStatistic(os: CodedOutputStream, s: CacheStatistic)
    requires s.cachedSize == |EncodeFields(StatisticFields(s))|
    modifies os
    ensures os.bytes == old(os.bytes) + EncodeField(Field(1, Blob(EncodeFields(StatisticFields(s)))))
  {
    ghost var nested := EncodeFields(StatisticFields(s));
    WriteNestedHeader(os, 1, s.cachedSize, nested);
    WriteStatistic(os, s);
    assert [Field(1, Blob(nested))][1..] == [];
  }

  /** One turn of the loop over the statistics: a nested message with its
      cached size as length prefix. */
  method WriteNested(os: CodedOutputStream, stats: seq<CacheStatistic>, i: nat, ghost before: Bytes)
    requires i < |stats| && stats[i].cachedSize == |EncodeFields(StatisticFields(stats[i]))|
    requires os.bytes == before + EncodeFields(StatsFields(stats[..i]))
    modifies os
    ensures os.bytes == before + EncodeFields(StatsFields(stats[..i + 1]))
  {
    NestedWritten(before, stats, i);
    WriteNestedStatistic(os, stats[i]);
  }

  lemma {:induction false} NestedWritten(before: Bytes, stats: seq<CacheStatistic>, i: nat)
    requires i < |stats|
    ensures before + EncodeFields(StatsFields(stats[..i]))
            + EncodeField(Field(1, Blob(EncodeFields(StatisticFields(stats[i])))))
         == before + EncodeFields(StatsFields(stats[..i + 1]))
  {
    StatsGrow(stats, i);
    Assoc3(before, EncodeFields(StatsFields(stats[..i])),
           EncodeField(Field(1, Blob(EncodeFields(StatisticFields(stats[i]))))));
  }

  method WriteStatistics(os: CodedOutputStream, stats: seq<CacheStatistic>)
    requires forall s :: s in stats ==> s.cachedSize == |EncodeFields(StatisticFields(s))|
    modifies os
    ensures os.bytes == old(os.bytes) + EncodeFields(StatsFields(stats))
  {
    for i := 0 to |stats|
      invariant os.bytes == old(os.bytes) + EncodeFields(StatsFields(stats[..i]))
    {
      WriteNested(os, stats, i, old(os.bytes));
    }
    assert stats[..|stats|] == stats;
  }

  method WriteStats(os: CodedOutputStream, m: CacheStats)
    requires m == SizedStats(m)
    modifies os
    ensures os.bytes == old(os.bytes) + EncodeFields(StatsFields(m.stats))
  {
    forall s | s in m.stats ensures s.cachedSize == |EncodeFields(StatisticFields(s))| {
      var i :| 0 <= i < |m.stats| && m.stats[i] == s;
      SizedAt(m.stats, i);
    }
    WriteStatistics(os, m.stats);
  }

  method WriteShuttingDown(os: CodedOutputStream, m: ShuttingDown)
    requires m == SizedShuttingDown(m)
    modifies os
    ensures os.bytes == old(os.bytes) + EncodeFields(ShuttingDownFields(m))
  {
    if m.stats.None? { return; }
    WriteNestedHeader(os, 1, m.stats.value.cachedSize, EncodeFields(StatsFields(m.stats.value.stats)));
    WriteStats(os, m.stats.value);
  }

  method WriteStatus(os: CodedOutputStream, status: Option<ExitStatus>)
    modifies os
    ensures os.bytes == old(os.bytes) + EncodeFields(StatusFields(status))
  {
    match status
    case None =>
    case Some(Retcode(x)) =>
      os.WriteNumber(1, FromInt32(x));
      assert StatusFields(status)[1..] == [];
    case Some(Signal(x)) =>
      os.WriteNumber(2, FromInt32(x));
      assert StatusFields(status)[1..] == [];
  }

  method WriteFinished(os: CodedOutputStream, m: CompileFinished)
    modifies os
    ensures os.bytes == old(os.bytes) + EncodeFields(FinishedFields(m))
  {
    WriteOpt(os, 3, m.stdout);
    WriteOpt(os, 4, m.stderr);
    WriteStatus(os, m.exitStatus);
    ghost var out, err, status := OptBlob(3, m.stdout), OptBlob(4, m.stderr), StatusFields(m.exitStatus);
    Assoc(old(os.bytes), EncodeFields(out), EncodeFields(err), EncodeFields(status));
    EncodeFieldsConcat(out, err + status);
    EncodeFieldsConcat(err, status);
  }

  method WriteResponse(os: CodedOutputStream, m: ServerResponse)
    requires m == SizedResponse(m)
    modifies os
    ensures os.bytes == old(os.bytes) + EncodeResponse(m)
  {
    if m.response.None? { return; }
    match m.response.value
    case Stats(s) =>
      WriteNestedHeader(os, 1, s.cachedSize, EncodeFields(StatsFields(s.stats)));
      WriteStats(os, s);
    case GoingDown(s) =>
      WriteNestedHeader(os, 2, s.cachedSize, EncodeFields(ShuttingDownFields(s)));
      WriteShuttingDown(os, s);
    case Started(e) => WriteNestedHeader(os, 3, e.cachedSize, []);
    case Done(f) =>
      WriteNestedHeader(os, 4, f.cachedSize, EncodeFields(FinishedFields(f)));
      WriteFinished(os, f);
    case Unhandled(e) => WriteNestedHeader(os, 5, e.cachedSize, []);
    case Unrecognized(e) => WriteNestedHeader(os, 6, e.cachedSize, []);
  }

  // ----- Sizes do not change what is written -----

  lemma {:induction false} SizedStatisticsEncode(stats: seq<CacheStatistic>)
    ensures SizedStatistics(SizedStatistics(stats)) == SizedStatistics(stats)
    ensures StatsFields(SizedStatistics(stats)) == StatsFields(stats)
  {
    if stats != [] {
      assert StatisticFields(SizedStatistic(stats[0])) == StatisticFields(stats[0]);
      assert SizedStatistics(stats)[1..] == SizedStatistics(stats[1..]);
      SizedStatisticsEncode(stats[1..]);
    }
  }

  lemma {:induction false} SizedRequestEncodes(m: ClientRequest)
    ensures SizedRequest(SizedRequest(m)) == SizedRequest(m)
    ensures EncodeRequest(SizedRequest(m)) == EncodeRequest(m)
  {
    if m.request.Some? && m.request.value.CompileRequest? {
      var c := m.request.value.compile;
      assert CompileFields(SizedCompile(c)) == CompileFields(c);
    }
  }

  lemma {:induction false} SizedResponseEncodes(m: ServerResponse)
    ensures SizedResponse(SizedResponse(m)) == SizedResponse(m)
    ensures EncodeResponse(SizedResponse(m)) == EncodeResponse(m)
  {
    if m.response.Some? {
      match m.response.value
      case Stats(s) => SizedStatisticsEncode(s.stats);
      case GoingDown(s) =>
        if s.stats.Some? {
          SizedStatisticsEncode(s.stats.value.stats);
          assert ShuttingDownFields(SizedShuttingDown(s)) == ShuttingDownFields(s);
        }
      case Done(f) => assert FinishedFields(SizedFinished(f)) == FinishedFields(f);
      case _ =>
    }
  }
}
