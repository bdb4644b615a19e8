/** Fields that a message does not know, as a later version may send them, and
    text that is not UTF-8. */
module UnknownFields {
  import opened Options
  import opened Octets
  import opened Wire
  import opened Messages
  import opened MessageRoundTrip

  /** What may stand behind the tag of a field. */
  datatype Content =
    | Varint(n: nat)
    | EightBytes(bytes: Bytes)
    | Delimited(bytes: Bytes)
    | FourBytes(bytes: Bytes)

  ghost predicate Possible(c: Content) {
    match c
    case Varint(n) => n < U64
    case EightBytes(bytes) => |bytes| == 8
    case Delimited(bytes) => |bytes| < U32
    case FourBytes(bytes) => |bytes| == 4
  }

  /** The wire types of the Encoding specification, section "Message
      Structure". */
  function WrittenAs(number: nat, c: Content): Bytes {
    match c
    case Varint(n) => EncodeVarint(8 * number) + EncodeVarint(n)
    case EightBytes(bytes) => EncodeVarint(8 * number + 1) + bytes
    case Delimited(bytes) => EncodeVarint(8 * number + 2) + (EncodeVarint(|bytes|) + bytes)
    case FourBytes(bytes) => EncodeVarint(8 * number + 5) + bytes
  }

  lemma {:induction false} TagReads(number: nat, wire: nat, rest: Bytes)
    requires 1 <= number < 0x2000_0000 && wire in {0, 1, 2, 5}
    ensures ReadTag(EncodeVarint(8 * number + wire) + rest)
         == Ok((number,
                if wire == 0 then VarintType else if wire == 1 then Fixed64
                else if wire == 2 then LengthDelimited else Fixed32,
                rest))
  {
    VarintRoundTrip(8 * number + wire, rest);
  }

  /** The content is read to its end. */
  ghost predicate ReadsOver(number: nat, bs: Bytes, tail: Bytes) {
    var tag := ReadTag(bs);
    tag.Ok? && tag.value.0 == number && ReadsContent(tag.value.1, tag.value.2, tail)
  }

  ghost predicate ReadsContent(t: WireType, bs: Bytes, tail: Bytes) {
    var content := ReadValue(t, bs);
    content.Ok? && content.value.1 == tail
  }

  lemma {:induction false} NumberRead(number: nat, n: nat, tail: Bytes)
    requires 1 <= number < 0x2000_0000 && n < U64
    ensures ReadsOver(number, EncodeVarint(8 * number) + EncodeVarint(n) + tail, tail)
  {
    var tag := EncodeVarint(8 * number + 0);
    assert tag + EncodeVarint(n) + tail == tag + (EncodeVarint(n) + tail);
    TagReads(number, 0, EncodeVarint(n) + tail);
    VarintRoundTrip(n, tail);
  }

  lemma {:induction false} DelimitedRead(number: nat, bytes: Bytes, tail: Bytes)
    requires 1 <= number < 0x2000_0000 && |bytes| < U32
    ensures ReadsOver(number, EncodeVarint(8 * number + 2) + (EncodeVarint(|bytes|) + bytes) + tail, tail)
  {
    var tag, len, behind := EncodeVarint(8 * number + 2), EncodeVarint(|bytes|), bytes + tail;
    assert tag + (len + bytes) + tail == tag + (len + behind);
    TagReads(number, 2, len + behind);
    VarintRoundTrip(|bytes|, behind);
    assert behind[|bytes|..] == tail;
  }

  lemma {:induction false} FixedRead(number: nat, wire: nat, bytes: Bytes, tail: Bytes)
    requires 1 <= number < 0x2000_0000 && ((wire == 1 && |bytes| == 8) || (wire == 5 && |bytes| == 4))
    ensures ReadsOver(number, EncodeVarint(8 * number + wire) + bytes + tail, tail)
  {
    var tag, behind := EncodeVarint(8 * number + wire), bytes + tail;
    assert tag + bytes + tail == tag + behind;
    TagReads(number, wire, behind);
    assert behind[|bytes|..] == tail;
  }

  lemma {:induction false} ContentRead(number: nat, c: Content, tail: Bytes)
    requires 1 <= number < 0x2000_0000 && Possible(c)
    ensures ReadsOver(number, WrittenAs(number, c) + tail, tail)
  {
    match c
    case Varint(n) => NumberRead(number, n, tail);
    case EightBytes(bytes) => FixedRead(number, 1, bytes, tail);
    case Delimited(bytes) => DelimitedRead(number, bytes, tail);
    case FourBytes(bytes) => FixedRead(number, 5, bytes, tail);
  }

  lemma {:induction false} FieldSkipped<M>(schema: Schema<M>, m: M, number: nat, bs: Bytes, tail: Bytes)
    requires schema.wireType(number) == Unknown && ReadsOver(number, bs, tail)
    ensures MergeField(schema, m, bs) == Ok((m, tail))
  {
  }

  /** One turn of reading a message. */
  lemma {:induction false} OneTurn<M>(schema: Schema<M>, m: M, bs: Bytes)
    requires bs != []
    ensures
      var read := MergeField(schema, m, bs);
      MergeFrom(schema, m, bs)
      == if read.Ok? then MergeFrom(schema, read.value.0, read.value.1) else Err(read.error)
  {
  }

  lemma {:induction false} FieldRead<M>(schema: Schema<M>, m: M, f: Field, tail: Bytes)
    requires Fits(schema, f)
    ensures
      var merged := schema.merge(m, f.number, f.value);
      MergeField(schema, m, EncodeField(f) + tail)
      == if merged.Ok? then Ok((merged.value, tail)) else Err(merged.error)
  {
    assert EncodeField(f) + tail == EncodeTag(f.number, TypeOf(f.value)) + (EncodeValue(f.value) + tail);
    TagRoundTrip(f, EncodeValue(f.value) + tail);
    ValueRoundTrip(f.value, tail);
  }

  lemma {:induction false} SkippedFirst<M>(schema: Schema<M>, m: M, number: nat, c: Content, tail: Bytes)
    requires 1 <= number < 0x2000_0000 && schema.wireType(number) == Unknown && Possible(c)
    ensures MergeFrom(schema, m, WrittenAs(number, c) + tail) == MergeFrom(schema, m, tail)
  {
    ContentRead(number, c, tail);
    FieldSkipped(schema, m, number, WrittenAs(number, c) + tail, tail);
    OneTurn(schema, m, WrittenAs(number, c) + tail);
  }

  lemma {:induction false} ReadFirst<M>(schema: Schema<M>, m: M, f: Field, tail: Bytes)
    requires Fits(schema, f)
    ensures
      var merged := schema.merge(m, f.number, f.value);
      MergeFrom(schema, m, EncodeField(f) + tail)
      == if merged.Ok? then MergeFrom(schema, merged.value, tail) else Err(merged.error)
  {
    FieldRead(schema, m, f, tail);
    OneTurn(schema, m, EncodeField(f) + tail);
  }

  ghost predicate ReadAlike<M>(schema: Schema<M>, m: M, a: Bytes, b: Bytes) {
    MergeFrom(schema, m, a) == MergeFrom(schema, m, b)
  }

  lemma {:induction false} AlikeBehind<M>(schema: Schema<M>, m: M, f: Field, a: Bytes, b: Bytes)
    requires Fits(schema, f)
    requires
      var merged := schema.merge(m, f.number, f.value);
      merged.Ok? ==> ReadAlike(schema, merged.value, a, b)
    ensures ReadAlike(schema, m, EncodeField(f) + a, EncodeField(f) + b)
  {
    ReadFirst(schema, m, f, a);
    ReadFirst(schema, m, f, b);
  }

  lemma {:induction false} FirstInFront(front: seq<Field>, later: Bytes, behind: Bytes)
    requires front != [] && later == EncodeFields(front[1..])
    ensures EncodeFields(front) + behind == EncodeField(front[0]) + (later + behind)
  {
    var first := EncodeField(front[0]);
    assert (first + later) + behind == first + (later + behind);
  }

  lemma {:induction false} SkippedBehind<M>(schema: Schema<M>, m: M, front: seq<Field>, extra: Bytes,
                                            tail: Bytes)
    requires forall f :: f in front ==> Fits(schema, f)
    requires forall m :: ReadAlike(schema, m, extra, tail)
    ensures ReadAlike(schema, m, EncodeFields(front) + extra, EncodeFields(front) + tail)
    decreases |front|
  {
    if front == [] {
      assert [] + extra == extra && [] + tail == tail;
    } else {
      var f, later := front[0], EncodeFields(front[1..]);
      FirstInFront(front, later, extra);
      FirstInFront(front, later, tail);
      var merged := schema.merge(m, f.number, f.value);
      if merged.Ok? { SkippedBehind(schema, merged.value, front[1..], extra, tail); }
      AlikeBehind(schema, m, f, later + extra, later + tail);
    }
  }

  /** A field that the message does not know makes no difference, wherever it
      is. */
  lemma {:induction false} Skipped<M>(schema: Schema<M>, m: M, front: seq<Field>, number: nat, c: Content, tail: Bytes)
    requires forall f :: f in front ==> Fits(schema, f)
    requires 1 <= number < 0x2000_0000 && schema.wireType(number) == Unknown && Possible(c)
    ensures MergeFrom(schema, m, EncodeFields(front) + (WrittenAs(number, c) + tail))
         == MergeFrom(schema, m, EncodeFields(front) + tail)
  {
    var extra := WrittenAs(number, c) + tail;
    forall m ensures ReadAlike(schema, m, extra, tail) { SkippedFirst(schema, m, number, c, tail); }
    SkippedBehind(schema, m, front, extra, tail);
  }

  // ----- Text -----

  lemma {:induction false} CommandRefused(m: Compile, args: seq<Bytes>)
    requires exists arg :: arg in args && !ValidUtf8(arg)
    ensures SetAll(CompileSchema, m, Blobs(3, args)) == Err(InvalidUtf8)
    decreases |args|
  {
    if ValidUtf8(args[0]) {
      var arg :| arg in args && !ValidUtf8(arg);
      assert arg in args[1..];
      CommandRefused(m.(command := m.command + [args[0]]), args[1..]);
    }
  }

  /** A compile request with text that is not UTF-8 is refused. */
  lemma {:induction false} CompileRefused(m: Compile)
    requires !CompileText(m) && |EncodeFields(CompileFields(m))| < U32
    ensures MergeFrom(CompileSchema, CompileSchema.empty, EncodeFields(CompileFields(m))) == Err(InvalidUtf8)
  {
    var fs, e := CompileFields(m), CompileSchema.empty;
    BlobsAt(3, m.command);
    AllWritable(fs);
    MergeWritten(CompileSchema, e, fs);
    var tail := OptBlob(2, m.exe) + Blobs(3, m.command);
    if Utf8(m.cwd) {
      var m1 := e.(cwd := m.cwd);
      assert SetAll(CompileSchema, e, OptBlob(1, m.cwd)) == Ok(m1);
      SetAllConcat(CompileSchema, e, OptBlob(1, m.cwd), tail);
      if Utf8(m.exe) {
        var m2 := m1.(exe := m.exe);
        assert SetAll(CompileSchema, m1, OptBlob(2, m.exe)) == Ok(m2);
        SetAllConcat(CompileSchema, m1, OptBlob(2, m.exe), Blobs(3, m.command));
        CommandRefused(m2, m.command);
      } else {
        assert tail[0] == Field(2, Blob(m.exe.value));
      }
    } else {
      assert fs[0] == Field(1, Blob(m.cwd.value));
    }
  }

  /** And so is the request it is in. */
  lemma {:induction false} RequestRefused(m: ClientRequest)
    requires |EncodeRequest(m)| < U32 && !RequestText(m)
    ensures Parse(RequestSchema, EncodeRequest(m)) == Err(InvalidUtf8)
  {
    var fs := RequestFields(m);
    FieldWithin(fs, fs[0]);
    SingleField(RequestSchema, fs[0]);
    CompileRefused(m.request.value.compile);
  }
}
