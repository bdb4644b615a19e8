/** The bytes of each message as they are on the wire, by the field numbers and
    wire types of the protocol. */
module WireBytes {
  import opened Options
  import opened Octets
  import opened Wire
  import opened Messages

  /** A tag, a length and that many bytes. */
  function Delimited(tag: byte, bytes: Bytes): Bytes { [tag] + EncodeVarint(|bytes|) + bytes }

  function MayBe(tag: byte, o: Option<Bytes>): Bytes { if o.Some? then Delimited(tag, o.value) else [] }

  function Each(tag: byte, bs: seq<Bytes>): Bytes {
    if bs == [] then [] else Delimited(tag, bs[0]) + Each(tag, bs[1..])
  }

  /** The example of the section "Base 128 Varints" of the Encoding
      specification. */
  lemma {:induction false} ThreeHundred()
    ensures EncodeVarint(150) == [0x96, 0x01] && EncodeVarint(300) == [0xAC, 0x02]
  {
    assert EncodeVarint(1) == [1] && EncodeVarint(2) == [2];
    assert 150 / 128 == 1 && 300 / 128 == 2;
  }

  lemma {:induction false} Tags(number: nat)
    requires 1 <= number <= 6
    ensures EncodeTag(number, LengthDelimited) == [8 * number + 2] && EncodeTag(number, VarintType) == [8 * number]
  {
  }

  lemma {:induction false} OneField(f: Field)
    ensures EncodeFields([f]) == EncodeField(f)
  {
    assert [f][1..] == [];
  }

  lemma {:induction false} OptOnTheWire(number: nat, o: Option<Bytes>)
    requires 1 <= number <= 6
    ensures EncodeFields(OptBlob(number, o)) == MayBe(8 * number + 2, o)
  {
    Tags(number);
    if o.Some? {
      OneField(Field(number, Blob(o.value)));
      assert [8 * number + 2] + (EncodeVarint(|o.value|) + o.value) == Delimited(8 * number + 2, o.value);
    }
  }

  lemma {:induction false} EachOnTheWire(number: nat, bs: seq<Bytes>)
    requires 1 <= number <= 6
    ensures EncodeFields(Blobs(number, bs)) == Each(8 * number + 2, bs)
  {
    Tags(number);
    if bs != [] {
      EachOnTheWire(number, bs[1..]);
      assert Blobs(number, bs)[1..] == Blobs(number, bs[1..]);
      assert [8 * number + 2] + (EncodeVarint(|bs[0]|) + bs[0]) == Delimited(8 * number + 2, bs[0]);
    }
  }

  lemma {:induction false} CompileOnTheWire(m: Compile)
    ensures EncodeFields(CompileFields(m)) == MayBe(0x0A, m.cwd) + (MayBe(0x12, m.exe) + Each(0x1A, m.command))
  {
    OptOnTheWire(1, m.cwd);
    OptOnTheWire(2, m.exe);
    EachOnTheWire(3, m.command);
    EncodeFieldsConcat(OptBlob(1, m.cwd), OptBlob(2, m.exe) + Blobs(3, m.command));
    EncodeFieldsConcat(OptBlob(2, m.exe), Blobs(3, m.command));
  }

  lemma {:induction false} EmptyOnTheWire(number: nat)
    requires 1 <= number <= 6
    ensures EncodeFields([Field(number, Blob([]))]) == [8 * number + 2, 0]
  {
    OptOnTheWire(number, Some([]));
  }

  lemma {:induction false} RequestOnTheWire(m: ClientRequest)
    requires m.request.Some?
    ensures EncodeRequest(m) ==
            match m.request.value
            case CompileRequest(c) => Delimited(0x0A, EncodeFields(CompileFields(c)))
            case GetStats(_) => [0x12, 0]
            case Shutdown(_) => [0x1A, 0]
            case ZeroStats(_) => [0x22, 0]
  {
    EmptyOnTheWire(2);
    EmptyOnTheWire(3);
    EmptyOnTheWire(4);
    if m.request.value.CompileRequest? { OptOnTheWire(1, Some(EncodeFields(CompileFields(m.request.value.compile)))); }
  }

  lemma {:induction false} NumberOnTheWire(number: nat, n: nat)
    requires 1 <= number <= 6
    ensures EncodeFields([Field(number, Number(n))]) == [8 * number] + EncodeVarint(n)
  {
    Tags(number);
    OneField(Field(number, Number(n)));
  }

  lemma {:induction false} StatisticOnTheWire(m: CacheStatistic)
    ensures EncodeFields(StatisticFields(m)) ==
            MayBe(0x0A, m.name) +
            match m.value
            case None => []
            case Some(Count(n)) => [0x10] + EncodeVarint(n)
            case Some(Str(s)) => Delimited(0x1A, s)
            case Some(Size(n)) => [0x20] + EncodeVarint(n)
  {
    OptOnTheWire(1, m.name);
    EncodeFieldsConcat(OptBlob(1, m.name), ValueFields(m.value));
    match m.value
    case None =>
    case Some(Count(n)) => NumberOnTheWire(2, n);
    case Some(Str(s)) => OptOnTheWire(3, Some(s));
    case Some(Size(n)) => NumberOnTheWire(4, n);
  }

  function StatisticBytes(stats: seq<CacheStatistic>): seq<Bytes> {
    if stats == [] then [] else [EncodeFields(StatisticFields(stats[0]))] + StatisticBytes(stats[1..])
  }

  lemma {:induction false} StatsOnTheWire(stats: seq<CacheStatistic>)
    ensures EncodeFields(StatsFields(stats)) == Each(0x0A, StatisticBytes(stats))
  {
    EachOnTheWire(1, StatisticBytes(stats));
    StatsAreBlobs(stats);
  }

  lemma {:induction false} StatsAreBlobs(stats: seq<CacheStatistic>)
    ensures StatsFields(stats) == Blobs(1, StatisticBytes(stats))
  {
    if stats != [] { StatsAreBlobs(stats[1..]); }
  }

  lemma {:induction false} FinishedOnTheWire(m: CompileFinished)
    ensures EncodeFields(FinishedFields(m)) ==
            MayBe(0x1A, m.stdout) + (MayBe(0x22, m.stderr) +
            match m.exitStatus
            case None => []
            case Some(Retcode(x)) => [0x08] + EncodeVarint(FromInt32(x))
            case Some(Signal(x)) => [0x10] + EncodeVarint(FromInt32(x)))
  {
    OptOnTheWire(3, m.stdout);
    OptOnTheWire(4, m.stderr);
    EncodeFieldsConcat(OptBlob(3, m.stdout), OptBlob(4, m.stderr) + StatusFields(m.exitStatus));
    EncodeFieldsConcat(OptBlob(4, m.stderr), StatusFields(m.exitStatus));
    match m.exitStatus
    case None =>
    case Some(Retcode(x)) => NumberOnTheWire(1, FromInt32(x));
    case Some(Signal(x)) => NumberOnTheWire(2, FromInt32(x));
  }

  lemma {:induction false} ResponseOnTheWire(m: ServerResponse)
    requires m.response.Some?
    ensures EncodeResponse(m) ==
            match m.response.value
            case Stats(s) => Delimited(0x0A, EncodeFields(StatsFields(s.stats)))
            case GoingDown(s) => Delimited(0x12, EncodeFields(ShuttingDownFields(s)))
            case Started(_) => [0x1A, 0]
            case Done(f) => Delimited(0x22, EncodeFields(FinishedFields(f)))
            case Unhandled(_) => [0x2A, 0]
            case Unrecognized(_) => [0x32, 0]
  {
    EmptyOnTheWire(3);
    EmptyOnTheWire(5);
    EmptyOnTheWire(6);
    match m.response.value
    case Stats(s) => OptOnTheWire(1, Some(EncodeFields(StatsFields(s.stats))));
    case GoingDown(s) => OptOnTheWire(2, Some(EncodeFields(ShuttingDownFields(s))));
    case Done(f) => OptOnTheWire(4, Some(EncodeFields(FinishedFields(f))));
    case _ =>
  }

  lemma {:induction false} ShuttingDownOnTheWire(m: ShuttingDown)
    ensures EncodeFields(ShuttingDownFields(m))
         == if m.stats.None? then [] else Delimited(0x0A, EncodeFields(StatsFields(m.stats.value.stats)))
  {
    if m.stats.Some? { OptOnTheWire(1, Some(EncodeFields(StatsFields(m.stats.value.stats)))); }
  }
}
