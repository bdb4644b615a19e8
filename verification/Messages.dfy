/** The messages between client and server: their fields, what generated code
    merges into them, and their encoding. `cachedSize` is the size that the
    last `compute_size` left in a message. */
module Messages {
  import opened Options
  import opened Octets
  import opened Wire

  type u64 = x: int | 0 <= x < U64

  /** GetStats, Shutdown, ZeroStats, CompileStarted, UnhandledCompile and
      UnknownCommand have no fields. */
  datatype NoFields = NoFields(cachedSize: nat)

  datatype Compile = Compile(cwd: Option<Bytes>, exe: Option<Bytes>, command: seq<Bytes>, cachedSize: nat)

  datatype RequestKind =
    | CompileRequest(compile: Compile)
    | GetStats(getStats: NoFields)
    | Shutdown(shutdown: NoFields)
    | ZeroStats(zeroStats: NoFields)

  datatype ClientRequest = ClientRequest(request: Option<RequestKind>, cachedSize: nat)

  datatype StatValue = Count(count: u64) | Str(str: Bytes) | Size(size: u64)

  datatype CacheStatistic = CacheStatistic(name: Option<Bytes>, value: Option<StatValue>, cachedSize: nat)

  datatype CacheStats = CacheStats(stats: seq<CacheStatistic>, cachedSize: nat)

  datatype ShuttingDown = ShuttingDown(stats: Option<CacheStats>, cachedSize: nat)

  datatype ExitStatus = Retcode(retcode: int32) | Signal(signal: int32)

  datatype CompileFinished = CompileFinished(
    exitStatus: Option<ExitStatus>, stdout: Option<Bytes>, stderr: Option<Bytes>, cachedSize: nat)

  datatype ResponseKind =
    | Stats(stats: CacheStats)
    | GoingDown(shuttingDown: ShuttingDown)
    | Started(started: NoFields)
    | Done(finished: CompileFinished)
    | Unhandled(unhandled: NoFields)
    | Unrecognized(unknown: NoFields)

  datatype ServerResponse = ServerResponse(response: Option<ResponseKind>, cachedSize: nat)

  // ----- Encoding -----

  function OptBlob(number: nat, o: Option<Bytes>): seq<Field> {
    if o.Some? then [Field(number, Blob(o.value))] else []
  }

  function Blobs(number: nat, bs: seq<Bytes>): seq<Field> {
    if bs == [] then [] else [Field(number, Blob(bs[0]))] + Blobs(number, bs[1..])
  }

  function CompileFields(m: Compile): seq<Field> {
    OptBlob(1, m.cwd) + (OptBlob(2, m.exe) + Blobs(3, m.command))
  }

  function RequestFields(m: ClientRequest): seq<Field> {
    if m.request.None? then []
    else
      match m.request.value
      case CompileRequest(c) => [Field(1, Blob(EncodeFields(CompileFields(c))))]
      case GetStats(_) => [Field(2, Blob([]))]
      case Shutdown(_) => [Field(3, Blob([]))]
      case ZeroStats(_) => [Field(4, Blob([]))]
  }

  function ValueFields(value: Option<StatValue>): seq<Field> {
    match value
    case None => []
    case Some(Count(n)) => [Field(2, Number(n))]
    case Some(Str(s)) => [Field(3, Blob(s))]
    case Some(Size(n)) => [Field(4, Number(n))]
  }

  function StatisticFields(m: CacheStatistic): seq<Field> {
    OptBlob(1, m.name) + ValueFields(m.value)
  }

  function StatsFields(stats: seq<CacheStatistic>): seq<Field> {
    if stats == [] then []
    else [Field(1, Blob(EncodeFields(StatisticFields(stats[0]))))] + StatsFields(stats[1..])
  }

  function ShuttingDownFields(m: ShuttingDown): seq<Field> {
    if m.stats.None? then [] else [Field(1, Blob(EncodeFields(StatsFields(m.stats.value.stats))))]
  }

  function StatusFields(status: Option<ExitStatus>): seq<Field> {
    match status
    case None => []
    case Some(Retcode(x)) => [Field(1, Number(FromInt32(x)))]
    case Some(Signal(x)) => [Field(2, Number(FromInt32(x)))]
  }

  /** The exit status is written last, after fields 3 and 4. */
  function FinishedFields(m: CompileFinished): seq<Field> {
    OptBlob(3, m.stdout) + (OptBlob(4, m.stderr) + StatusFields(m.exitStatus))
  }

  function ResponseFields(m: ServerResponse): seq<Field> {
    if m.response.None? then []
    else
      match m.response.value
      case Stats(s) => [Field(1, Blob(EncodeFields(StatsFields(s.stats))))]
      case GoingDown(s) => [Field(2, Blob(EncodeFields(ShuttingDownFields(s))))]
      case Started(_) => [Field(3, Blob([]))]
      case Done(f) => [Field(4, Blob(EncodeFields(FinishedFields(f))))]
      case Unhandled(_) => [Field(5, Blob([]))]
      case Unrecognized(_) => [Field(6, Blob([]))]
  }

  function EncodeRequest(m: ClientRequest): Bytes { EncodeFields(RequestFields(m)) }

  function EncodeResponse(m: ServerResponse): Bytes { EncodeFields(ResponseFields(m)) }

  // ----- Merging -----

  function AsString(v: Value): Result<Bytes> {
    match v
    case Blob(bytes) => if ValidUtf8(bytes) then Ok(bytes) else Err(InvalidUtf8)
    case Number(_) => Err(UnexpectedWireType)
  }

  function AsBytes(v: Value): Result<Bytes> {
    match v
    case Blob(bytes) => Ok(bytes)
    case Number(_) => Err(UnexpectedWireType)
  }

  function AsNumber(v: Value): Result<u64> {
    match v
    case Number(n) => Ok(n % U64)
    case Blob(_) => Err(UnexpectedWireType)
  }

  /** A nested message starts from its empty value and takes all its bytes. */
  function AsMessage<M>(schema: Schema<M>, v: Value): Result<M> {
    var bytes :- AsBytes(v);
    Parse(schema, bytes)
  }

  const EMPTY := NoFields(0)

  const NoFieldsSchema: Schema<NoFields> := Schema(EMPTY, field => Unknown, (m, field, v) => Ok(m), m => true)

  const CompileSchema: Schema<Compile> := Schema(
    Compile(None, None, [], 0),
    field => if 1 <= field <= 3 then Expects(LengthDelimited) else Unknown,
    (m, field, v) => MergeCompile(m, field, v),
    (m: Compile) => m.cwd.Some? && m.exe.Some?)

  function MergeCompile(m: Compile, field: nat, v: Value): Result<Compile> {
    var s :- AsString(v);
    if field == 1 then Ok(m.(cwd := Some(s)))
    else if field == 2 then Ok(m.(exe := Some(s)))
    else Ok(m.(command := m.command + [s]))
  }

  const RequestSchema: Schema<ClientRequest> := Schema(
    ClientRequest(None, 0),
    field => if 1 <= field <= 4 then Expects(LengthDelimited) else Unknown,
    (m, field, v) => MergeRequest(m, field, v),
    m => true)

  function MergeRequest(m: ClientRequest, field: nat, v: Value): Result<ClientRequest> {
    if field == 1 then
      var c :- AsMessage(CompileSchema, v);
      Ok(m.(request := Some(CompileRequest(c))))
    else
      var e :- AsMessage(NoFieldsSchema, v);
      Ok(m.(request := Some(if field == 2 then GetStats(e) else if field == 3 then Shutdown(e) else ZeroStats(e))))
  }

  const StatisticSchema: Schema<CacheStatistic> := Schema(
    CacheStatistic(None, None, 0),
    field => if field == 1 || field == 3 then Expects(LengthDelimited)
             else if field == 2 || field == 4 then Expects(VarintType) else Unknown,
    (m, field, v) => MergeStatistic(m, field, v),
    (m: CacheStatistic) => m.name.Some?)

  function MergeStatistic(m: CacheStatistic, field: nat, v: Value): Result<CacheStatistic> {
    if field == 1 then
      var s :- AsString(v);
      Ok(m.(name := Some(s)))
    else if field == 3 then
      var s :- AsString(v);
      Ok(m.(value := Some(Str(s))))
    else
      var n :- AsNumber(v);
      Ok(m.(value := Some(if field == 2 then Count(n) else Size(n))))
  }

  const StatsSchema: Schema<CacheStats> := Schema(
    CacheStats([], 0),
    field => if field == 1 then Expects(LengthDelimited) else Unknown,
    (m, field, v) => MergeStats(m, v),
    m => true)

  function MergeStats(m: CacheStats, v: Value): Result<CacheStats> {
    var s :- AsMessage(StatisticSchema, v);
    Ok(m.(stats := m.stats + [s]))
  }

  const ShuttingDownSchema: Schema<ShuttingDown> := Schema(
    ShuttingDown(None, 0),
    field => if field == 1 then Expects(LengthDelimited) else Unknown,
    (m, field, v) => MergeShuttingDown(m, v),
    (m: ShuttingDown) => m.stats.Some?)

  function MergeShuttingDown(m: ShuttingDown, v: Value): Result<ShuttingDown> {
    var s :- AsMessage(StatsSchema, v);
    Ok(m.(stats := Some(s)))
  }

  const FinishedSchema: Schema<CompileFinished> := Schema(
    CompileFinished(None, None, None, 0),
    field => if field == 1 || field == 2 then Expects(VarintType)
             else if field == 3 || field == 4 then Expects(LengthDelimited) else Unknown,
    (m, field, v) => MergeFinished(m, field, v),
    m => true)

  function MergeFinished(m: CompileFinished, field: nat, v: Value): Result<CompileFinished> {
    if field <= 2 then
      var n :- AsNumber(v);
      Ok(m.(exitStatus := Some(if field == 1 then Retcode(ToInt32(n)) else Signal(ToInt32(n)))))
    else
      var bytes :- AsBytes(v);
      Ok(if field == 3 then m.(stdout := Some(bytes)) else m.(stderr := Some(bytes)))
  }

  const ResponseSchema: Schema<ServerResponse> := Schema(
    ServerResponse(None, 0),
    field => if 1 <= field <= 6 then Expects(LengthDelimited) else Unknown,
    (m, field, v) => MergeResponse(m, field, v),
    m => true)

  function MergeResponse(m: ServerResponse, field: nat, v: Value): Result<ServerResponse> {
    if field == 1 then
      var s :- AsMessage(StatsSchema, v);
      Ok(m.(response := Some(Stats(s))))
    else if field == 2 then
      var s :- AsMessage(ShuttingDownSchema, v);
      Ok(m.(response := Some(GoingDown(s))))
    else if field == 4 then
      var f :- AsMessage(FinishedSchema, v);
      Ok(m.(response := Some(Done(f))))
    else
      var e :- AsMessage(NoFieldsSchema, v);
      Ok(m.(response := Some(if field == 3 then Started(e) else if field == 5 then Unhandled(e) else Unrecognized(e))))
  }
}
