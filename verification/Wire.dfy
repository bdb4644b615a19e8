/** The Protocol Buffers wire format: base 128 varints, tags and
    length-delimited values, as in the sections "Base 128 Varints", "Message
    Structure" and "Length-Delimited Records" of the Encoding specification. */
module Wire {
  import opened Octets

  const U32 := 0x1_0000_0000
  const U64 := 0x1_0000_0000_0000_0000

  datatype WireError =
    | Truncated
    | InvalidVarint
    | InvalidTag
    | UnexpectedWireType
    | InvalidUtf8
    | Overdrawn
    | NotInitialized

  datatype Result<+T> = Ok(value: T) | Err(error: WireError) {
    predicate IsFailure() { Err? }
    function PropagateFailure<U>(): Result<U>
      requires Err?
    {
      Err(error)
    }
    function Extract(): T
      requires Ok?
    {
      value
    }
  }

  // ----- Varints -----

  function EncodeVarint(n: nat): (out: Bytes)
    ensures |out| >= 1
  {
    if n < 128 then [n] else [128 + n % 128] + EncodeVarint(n / 128)
  }

  /** `compute_raw_varint32_size`: a threshold per seven bits. */
  function VarintSize32(n: nat): nat {
    if n < 0x80 then 1
    else if n < 0x4000 then 2
    else if n < 0x20_0000 then 3
    else if n < 0x1000_0000 then 4
    else 5
  }

  /** The same for 64-bit values. */
  function VarintSize64(n: nat): nat {
    if n < 0x8_0000_0000 then (if n < 0x1000_0000 then VarintSize32(n) else 5)
    else if n < 0x400_0000_0000 then 6
    else if n < 0x2_0000_0000_0000 then 7
    else if n < 0x100_0000_0000_0000 then 8
    else if n < 0x8000_0000_0000_0000 then 9
    else 10
  }

  /** Reads a varint after `read` of its bytes; at most ten belong to it. */
  function ReadVarintFrom(bs: Bytes, read: nat): (r: Result<(nat, Bytes)>)
    ensures r.Ok? ==> |r.value.1| < |bs|
    decreases |bs|
  {
    if read >= 10 then Err(InvalidVarint)
    else if bs == [] then Err(Truncated)
    else if bs[0] < 128 then Ok((bs[0], bs[1..]))
    else
      var (high, rest) :- ReadVarintFrom(bs[1..], read + 1);
      Ok((bs[0] - 128 + 128 * high, rest))
  }

  /** Bits above the sixty-fourth are shifted out. */
  function ReadVarint64(bs: Bytes): (r: Result<(nat, Bytes)>)
    ensures r.Ok? ==> |r.value.1| < |bs| && r.value.0 < U64
  {
    var (n, rest) :- ReadVarintFrom(bs, 0);
    Ok((n % U64, rest))
  }

  /** A 32-bit read truncates a 64-bit one. */
  function ReadVarint32(bs: Bytes): (r: Result<(nat, Bytes)>)
    ensures r.Ok? ==> |r.value.1| < |bs| && r.value.0 < U32
  {
    var (n, rest) :- ReadVarint64(bs);
    Ok((n % U32, rest))
  }

  function Pow128(k: nat): nat {
    if k == 0 then 1 else 128 * Pow128(k - 1)
  }

  lemma {:induction false} ReadBackFrom(n: nat, rest: Bytes, read: nat, left: nat)
    requires read + left == 10 && left >= 1 && n < Pow128(left)
    ensures ReadVarintFrom(EncodeVarint(n) + rest, read) == Ok((n, rest))
    decreases n
  {
    var bs := EncodeVarint(n) + rest;
    if n < 128 {
      assert bs[1..] == rest;
    } else {
      assert bs[1..] == EncodeVarint(n / 128) + rest;
      ReadBackFrom(n / 128, rest, read + 1, left - 1);
    }
  }

  lemma {:induction false} Narrowed(bs: Bytes, n: nat, rest: Bytes)
    requires n < U64 && ReadVarintFrom(bs, 0) == Ok((n, rest))
    ensures ReadVarint64(bs) == Ok((n, rest))
    ensures n < U32 ==> ReadVarint32(bs) == Ok((n, rest))
  {
  }

  /** A varint reads back, whatever follows it. */
  lemma {:induction false} VarintRoundTrip(n: nat, rest: Bytes)
    requires n < U64
    ensures ReadVarint64(EncodeVarint(n) + rest) == Ok((n, rest))
    ensures n < U32 ==> ReadVarint32(EncodeVarint(n) + rest) == Ok((n, rest))
  {
    PowerBound();
    ReadBackFrom(n, rest, 0, 10);
    Narrowed(EncodeVarint(n) + rest, n, rest);
  }

  lemma {:induction false} PowerBound()
    ensures Pow128(10) > U64
  {
    assert Pow128(2) == 0x4000;
    assert Pow128(4) == 0x1000_0000;
    assert Pow128(6) == 0x400_0000_0000;
    assert Pow128(8) == 0x100_0000_0000_0000;
  }

  /** Every proper prefix of a varint is a truncated one. */
  lemma {:induction false} VarintPrefixTruncated(n: nat, cut: nat, read: nat, left: nat)
    requires read + left == 10 && left >= 1 && n < Pow128(left)
    requires cut < |EncodeVarint(n)|
    ensures ReadVarintFrom(EncodeVarint(n)[..cut], read) == Err(Truncated)
    decreases n
  {
    if cut > 0 {
      assert EncodeVarint(n)[..cut][1..] == EncodeVarint(n / 128)[..cut - 1];
      VarintPrefixTruncated(n / 128, cut - 1, read + 1, left - 1);
    }
  }

  lemma {:induction false} VarintPart(n: nat, cut: nat)
    requires n < U64 && cut < |EncodeVarint(n)|
    ensures ReadVarint32(EncodeVarint(n)[..cut]) == Err(Truncated)
  {
    PowerBound();
    VarintPrefixTruncated(n, cut, 0, 10);
  }

  /** The size functions count the bytes of the encoding. */
  lemma {:induction false} VarintSizes(n: nat)
    requires n < U64
    ensures |EncodeVarint(n)| == VarintSize64(n)
    ensures n < U32 ==> VarintSize32(n) == VarintSize64(n)
  {
    if n >= 128 { VarintSizes(n / 128); }
  }

  // ----- Tags and values -----

  datatype WireType = VarintType | Fixed64 | LengthDelimited | StartGroup | EndGroup | Fixed32

  function WireNumber(t: WireType): nat {
    match t
    case VarintType => 0
    case Fixed64 => 1
    case LengthDelimited => 2
    case StartGroup => 3
    case EndGroup => 4
    case Fixed32 => 5
  }

  /** A field number and a wire type; field 0 and wire types 6 and 7 do not
      exist. */
  function ReadTag(bs: Bytes): (r: Result<(nat, WireType, Bytes)>)
    ensures r.Ok? ==> |r.value.2| < |bs|
  {
    var (tag, rest) :- ReadVarint32(bs);
    var field, wire := tag / 8, tag % 8;
    if field == 0 || wire > 5 then Err(InvalidTag)
    else
      Ok((field,
          if wire == 0 then VarintType else if wire == 1 then Fixed64 else if wire == 2 then LengthDelimited
          else if wire == 3 then StartGroup else if wire == 4 then EndGroup else Fixed32,
          rest))
  }

  /** The value behind a tag: a number, or the bytes of a delimited record. */
  datatype Value = Number(n: nat) | Blob(bytes: Bytes)

  function Take(bs: Bytes, n: nat): (r: Result<(Value, Bytes)>)
    ensures r.Ok? ==> |r.value.1| <= |bs|
  {
    if n > |bs| then Err(Overdrawn) else Ok((Blob(bs[..n]), bs[n..]))
  }

  function ReadValue(t: WireType, bs: Bytes): (r: Result<(Value, Bytes)>)
    ensures r.Ok? ==> |r.value.1| <= |bs|
  {
    match t
    case VarintType =>
      var (n, rest) :- ReadVarint64(bs);
      Ok((Number(n), rest))
    case LengthDelimited =>
      var (len, rest) :- ReadVarint32(bs);
      Take(rest, len)
    case Fixed64 => Take(bs, 8)
    case Fixed32 => Take(bs, 4)
    case StartGroup => Err(UnexpectedWireType)
    case EndGroup => Err(UnexpectedWireType)
  }

  /** One field as written: `write_tag` and the value after it. */
  datatype Field = Field(number: nat, value: Value)

  predicate Writable(f: Field) {
    1 <= f.number < 0x2000_0000 &&
    match f.value
    case Number(n) => n < U64
    case Blob(bytes) => |bytes| < U32
  }

  function TypeOf(v: Value): WireType {
    if v.Number? then VarintType else LengthDelimited
  }

  function EncodeValue(v: Value): Bytes {
    match v
    case Number(n) => EncodeVarint(n)
    case Blob(bytes) => EncodeVarint(|bytes|) + bytes
  }

  function EncodeTag(number: nat, t: WireType): Bytes {
    EncodeVarint(number * 8 + WireNumber(t))
  }

  function EncodeField(f: Field): (out: Bytes)
    ensures |out| >= 1
  {
    EncodeTag(f.number, TypeOf(f.value)) + EncodeValue(f.value)
  }

  function EncodeFields(fs: seq<Field>): Bytes {
    if fs == [] then [] else EncodeField(fs[0]) + EncodeFields(fs[1..])
  }

  lemma {:induction false} TagRoundTrip(f: Field, rest: Bytes)
    requires Writable(f)
    ensures ReadTag(EncodeTag(f.number, TypeOf(f.value)) + rest) == Ok((f.number, TypeOf(f.value), rest))
  {
    VarintRoundTrip(f.number * 8 + WireNumber(TypeOf(f.value)), rest);
  }

  lemma {:induction false} ValueRoundTrip(v: Value, rest: Bytes)
    requires match v case Number(n) => n < U64 case Blob(bytes) => |bytes| < U32
    ensures ReadValue(TypeOf(v), EncodeValue(v) + rest) == Ok((v, rest))
  {
    match v
    case Number(n) => VarintRoundTrip(n, rest);
    case Blob(bytes) =>
      assert EncodeValue(v) + rest == EncodeVarint(|bytes|) + (bytes + rest);
      VarintRoundTrip(|bytes|, bytes + rest);
  }

  // ----- Messages -----

  /** What generated code knows of a message: its empty value, the wire type of
      each known field, how a field is merged into it, and whether it has all
      its required fields. */
  datatype Schema<!M> = Schema(
    empty: M,
    wireType: nat -> Known,
    merge: (M, nat, Value) -> Result<M>,
    initialized: M -> bool)

  datatype Known = Unknown | Expects(t: WireType)

  /** One turn of a `merge_from` loop. The wire type of a known field is checked
      before its value is read; unknown fields are skipped. */
  function MergeField<M>(schema: Schema<M>, m: M, bs: Bytes): (r: Result<(M, Bytes)>)
    ensures r.Ok? ==> |r.value.1| < |bs|
  {
    var (field, t, rest) :- ReadTag(bs);
    match schema.wireType(field)
    case Expects(expected) =>
      if t != expected then Err(UnexpectedWireType)
      else
        var (value, after) :- ReadValue(t, rest);
        var merged :- schema.merge(m, field, value);
        Ok((merged, after))
    case Unknown =>
      var (_, after) :- ReadValue(t, rest);
      Ok((m, after))
  }

  /** `merge_from`: until the end of the input. */
  function MergeFrom<M>(schema: Schema<M>, m: M, bs: Bytes): Result<M>
    decreases |bs|
  {
    if bs == [] then Ok(m)
    else
      var (merged, rest) :- MergeField(schema, m, bs);
      MergeFrom(schema, merged, rest)
  }

  /** Reading a whole message, which must have its required fields. */
  function Parse<M>(schema: Schema<M>, bs: Bytes): Result<M> {
    var m :- MergeFrom(schema, schema.empty, bs);
    if schema.initialized(m) then Ok(m) else Err(NotInitialized)
  }

  /** Merging the fields themselves, without the bytes. */
  function SetAll<M>(schema: Schema<M>, m: M, fs: seq<Field>): Result<M> {
    if fs == [] then Ok(m)
    else
      var merged :- schema.merge(m, fs[0].number, fs[0].value);
      SetAll(schema, merged, fs[1..])
  }

  predicate Fits<M>(schema: Schema<M>, f: Field) {
    Writable(f) && schema.wireType(f.number) == Expects(TypeOf(f.value))
  }

  /** Reading what was written is merging the fields one after another. */
  lemma {:induction false} MergeWritten<M>(schema: Schema<M>, m: M, fs: seq<Field>)
    requires forall f :: f in fs ==> Fits(schema, f)
    ensures MergeFrom(schema, m, EncodeFields(fs)) == SetAll(schema, m, fs)
    decreases |fs|
  {
    if fs != [] {
      var f, tail := fs[0], EncodeFields(fs[1..]);
      assert Fits(schema, f);
      assert EncodeFields(fs) == EncodeTag(f.number, TypeOf(f.value)) + (EncodeValue(f.value) + tail);
      TagRoundTrip(f, EncodeValue(f.value) + tail);
      ValueRoundTrip(f.value, tail);
      var merged := schema.merge(m, f.number, f.value);
      if merged.Ok? { MergeWritten(schema, merged.value, fs[1..]); }
    }
  }

  lemma {:induction false} EncodeFieldsConcat(a: seq<Field>, b: seq<Field>)
    ensures EncodeFields(a + b) == EncodeFields(a) + EncodeFields(b)
  {
    if a == [] {
      assert a + b == b;
    } else {
      assert (a + b)[1..] == a[1..] + b;
      EncodeFieldsConcat(a[1..], b);
    }
  }

  lemma {:induction false} SetAllConcat<M>(schema: Schema<M>, m: M, a: seq<Field>, b: seq<Field>)
    requires SetAll(schema, m, a).Ok?
    ensures SetAll(schema, m, a + b) == SetAll(schema, SetAll(schema, m, a).value, b)
    decreases |a|
  {
    if a == [] {
      assert a + b == b;
    } else {
      assert (a + b)[1..] == a[1..] + b;
      SetAllConcat(schema, schema.merge(m, a[0].number, a[0].value).value, a[1..], b);
    }
  }

  // ----- Strings and signed numbers -----

  /** Well-formed UTF-8, as the Unicode Standard's table of byte sequences. */
  predicate ValidUtf8(bs: Bytes) {
    if bs == [] then true
    else if bs[0] < 0x80 then ValidUtf8(bs[1..])
    else if 0xC2 <= bs[0] <= 0xDF then
      |bs| >= 2 && Continues(bs[1]) && ValidUtf8(bs[2..])
    else if 0xE0 <= bs[0] <= 0xEF then
      |bs| >= 3 && Continues(bs[1]) && Continues(bs[2]) &&
      (bs[0] == 0xE0 ==> bs[1] >= 0xA0) && (bs[0] == 0xED ==> bs[1] < 0xA0) && ValidUtf8(bs[3..])
    else if 0xF0 <= bs[0] <= 0xF4 then
      |bs| >= 4 && Continues(bs[1]) && Continues(bs[2]) && Continues(bs[3]) &&
      (bs[0] == 0xF0 ==> bs[1] >= 0x90) && (bs[0] == 0xF4 ==> bs[1] < 0x90) && ValidUtf8(bs[4..])
    else false
  }

  predicate Continues(b: byte) { 0x80 <= b < 0xC0 }

  type int32 = x: int | -0x8000_0000 <= x < 0x8000_0000

  /** Negative numbers are written sign-extended to 64 bits. */
  function FromInt32(x: int32): nat {
    if x < 0 then U64 + x else x
  }

  /** And read back from the low 32 bits. */
  function ToInt32(n: nat): int32 {
    var low := n % U32;
    if low >= 0x8000_0000 then low - U32 else low
  }

  lemma {:induction false} Int32RoundTrip(x: int32)
    ensures FromInt32(x) < U64 && FromInt32(x) % U64 == FromInt32(x)
    ensures ToInt32(FromInt32(x)) == x
  {
  }

  /** A negative number takes all ten bytes of a varint. */
  lemma {:induction false} NegativeTakesTenBytes(x: int32)
    requires x < 0
    ensures |EncodeVarint(FromInt32(x))| == 10
  {
    VarintSizes(FromInt32(x));
  }
}
