/** The message types of `log.proto`: what `Unmarshal` does with each field and what `MarshalTo` writes.

    Strings and byte slices are byte sequences, pointers are options, `XXX_unrecognized` is `unknown`.
    Integers are mathematical; `...Ok` predicates give the ranges of their Go types. */
module Messages {

  import opened Wrappers
  import opened Bits
  import opened Wire

  // ---------------------------------------------------------------------------------------------
  // The types
  // ---------------------------------------------------------------------------------------------

  datatype Interval = Interval(seconds: nat, nanoseconds: nat, unknown: seq<byte>)

  datatype Attribute = Attribute(
    key: nat, skey: Option<seq<byte>>, ival: Option<int>, sval: Option<seq<byte>>, bval: Option<seq<byte>>,
    tval: Option<Interval>, boolval: Option<bool>, fval: Option<nat>, unknown: seq<byte>)

  datatype Tag = Tag(name: seq<byte>, value: Option<seq<byte>>, unknown: seq<byte>)

  /** The timestamp, a `tai64n.TAI64N`, has the shape of an interval on the wire. */
  datatype Message = Message(
    version: int, timestamp: Option<Interval>, typ: Option<nat>, attributes: seq<Attribute>,
    session: Option<seq<byte>>, tags: seq<Tag>, unknown: seq<byte>)

  datatype StreamHeader = StreamHeader(compression: Option<int>, mode: Option<int>, unknown: seq<byte>)

  const ZERO_INTERVAL := Interval(0, 0, [])
  const ZERO_ATTRIBUTE := Attribute(0, None, None, None, None, None, None, None, [])
  const ZERO_TAG := Tag([], None, [])
  const ZERO_MESSAGE := Message(0, None, None, [], None, [], [])
  const ZERO_HEADER := StreamHeader(None, None, [])

  // ---------------------------------------------------------------------------------------------
  // Signed integers
  // ---------------------------------------------------------------------------------------------

  predicate IsInt64(x: int) {
    -TWO_63 <= x < TWO_63
  }

  predicate IsInt32(x: int) {
    -TWO_31 <= x < TWO_31
  }

  /** `(uint64(x) << 1) ^ uint64(x >> 63)`: the shift fills with the sign, so the xor is with zero or with
      all ones. */
  function Zigzag(x: int): (u: nat)
    requires IsInt64(x)
    ensures u < TWO_64
  {
    var doubled := (ToUnsigned(x, TWO_64) * 2) % TWO_64;
    if x < 0 then TWO_64 - 1 - doubled else doubled
  }

  /** `(v >> 1) ^ uint64((int64(v&1)<<63)>>63)` as an `int64`. */
  function Unzigzag(v: nat): (x: int)
    requires v < TWO_64
  {
    ToSigned(if v % 2 == 1 then TWO_64 - 1 - v / 2 else v / 2, TWO_64)
  }

  lemma ZigzagRoundTrip(x: int)
    requires IsInt64(x)
    ensures Unzigzag(Zigzag(x)) == x
  {
  }

  /** `uint64(v)` of an `int32`: sign extension, so negative values take ten bytes. */
  function Extend(x: int): (u: nat)
    requires IsInt32(x)
    ensures u < TWO_64
  {
    ToUnsigned(x, TWO_64)
  }

  /** `m |= ...` on an `int32` that holds `x`, with the bits of a varint of value `v`. */
  function OrInt32(x: int, v: nat): int {
    ToSigned(Or(ToUnsigned(x, TWO_32), v % TWO_32), TWO_32)
  }

  lemma Int32RoundTrip(x: int)
    requires IsInt32(x)
    ensures OrInt32(0, Extend(x)) == x
  {
    assert Extend(x) % TWO_32 == ToUnsigned(x, TWO_32);
  }

  // ---------------------------------------------------------------------------------------------
  // Unmarshal, field by field
  // ---------------------------------------------------------------------------------------------

  /** Payloads always come in the shape their wire type has; the other case never arises. */
  function Num(p: Payload): nat {
    if p.Number? then p.v % TWO_64 else 0
  }

  function Blob(p: Payload): seq<byte> {
    if p.Bytes? then p.b else []
  }

  function IntervalKind(num: int): int {
    if num == 1 || num == 2 then VARINT else UNKNOWN
  }

  function IntervalApply(m: Interval, num: int, p: Payload): Result<Interval> {
    if num == 1 then Ok(m.(seconds := Or(m.seconds, Num(p))))
    else Ok(m.(nanoseconds := Or(m.nanoseconds, Num(p) % TWO_32)))
  }

  function IntervalSchema(): Schema<Interval> {
    Schema(IntervalKind, IntervalApply, (m: Interval, b: seq<byte>) => m.(unknown := m.unknown + b),
           (m: Interval) => m.unknown, [1, 2])
  }

  function AttributeKind(num: int): int {
    if num == 1 || num == 3 || num == 7 then VARINT
    else if num == 2 || 4 <= num <= 6 then BLOB
    else if num == 8 then FIXED64
    else UNKNOWN
  }

  function AttributeApply(m: Attribute, num: int, p: Payload): Result<Attribute> {
    if num == 1 then Ok(m.(key := Or(m.key, Num(p) % TWO_32)))
    else if num == 2 then Ok(m.(skey := Some(Blob(p))))
    else if num == 3 then Ok(m.(ival := Some(Unzigzag(Num(p)))))
    else if num == 4 then Ok(m.(sval := Some(Blob(p))))
    else if num == 5 then Ok(m.(bval := Some(Blob(p))))
    else if num == 6 then
      var inner := if m.tval.Some? then m.tval.value else ZERO_INTERVAL;
      var r := Decode(IntervalSchema(), Blob(p), |Blob(p)|, inner, {});
      if r.Fail? then Fail(r.error) else Ok(m.(tval := Some(r.value)))
    else if num == 7 then Ok(m.(boolval := Some(Num(p) != 0)))
    else Ok(m.(fval := Some(Num(p))))
  }

  function AttributeSchema(): Schema<Attribute> {
    Schema(AttributeKind, AttributeApply, (m: Attribute, b: seq<byte>) => m.(unknown := m.unknown + b),
           (m: Attribute) => m.unknown, [1])
  }

  function TagKind(num: int): int {
    if num == 1 || num == 2 then BLOB else UNKNOWN
  }

  function TagApply(m: Tag, num: int, p: Payload): Result<Tag> {
    if num == 1 then Ok(m.(name := Blob(p))) else Ok(m.(value := Some(Blob(p))))
  }

  function TagSchema(): Schema<Tag> {
    Schema(TagKind, TagApply, (m: Tag, b: seq<byte>) => m.(unknown := m.unknown + b),
           (m: Tag) => m.unknown, [1])
  }

  function MessageKind(num: int): int {
    if num == 2 || num == 6 then VARINT
    else if num == 1 || 3 <= num <= 5 then BLOB
    else UNKNOWN
  }

  function MessageApply(m: Message, num: int, p: Payload): Result<Message> {
    if num == 1 then
      var inner := if m.timestamp.Some? then m.timestamp.value else ZERO_INTERVAL;
      var r := Decode(IntervalSchema(), Blob(p), |Blob(p)|, inner, {});
      if r.Fail? then Fail(r.error) else Ok(m.(timestamp := Some(r.value)))
    else if num == 2 then Ok(m.(typ := Some(Num(p) % TWO_32)))
    else if num == 3 then
      var r := Decode(AttributeSchema(), Blob(p), |Blob(p)|, ZERO_ATTRIBUTE, {});
      if r.Fail? then Fail(r.error) else Ok(m.(attributes := m.attributes + [r.value]))
    else if num == 4 then Ok(m.(session := Some(Blob(p))))
    else if num == 5 then
      var r := Decode(TagSchema(), Blob(p), |Blob(p)|, ZERO_TAG, {});
      if r.Fail? then Fail(r.error) else Ok(m.(tags := m.tags + [r.value]))
    else Ok(m.(version := OrInt32(m.version, Num(p))))
  }

  function MessageSchema(): Schema<Message> {
    Schema(MessageKind, MessageApply, (m: Message, b: seq<byte>) => m.(unknown := m.unknown + b),
           (m: Message) => m.unknown, [1, 2])
  }

  function HeaderKind(num: int): int {
    if num == 1 || num == 2 then VARINT else UNKNOWN
  }

  function HeaderApply(m: StreamHeader, num: int, p: Payload): Result<StreamHeader> {
    if num == 1 then Ok(m.(compression := Some(OrInt32(0, Num(p))))) else Ok(m.(mode := Some(OrInt32(0, Num(p)))))
  }

  function HeaderSchema(): Schema<StreamHeader> {
    Schema(HeaderKind, HeaderApply, (m: StreamHeader, b: seq<byte>) => m.(unknown := m.unknown + b),
           (m: StreamHeader) => m.unknown, [])
  }

  // ---------------------------------------------------------------------------------------------
  // MarshalTo, field by field
  // ---------------------------------------------------------------------------------------------

  function OptBlob(num: int, b: Option<seq<byte>>): seq<Known> {
    if b.Some? then [Known(num, BLOB, Bytes(b.value))] else []
  }

  function OptNum(num: int, kind: int, v: Option<nat>): seq<Known> {
    if v.Some? then [Known(num, kind, Number(v.value))] else []
  }

  function IntervalFields(m: Interval): seq<Known> {
    [Known(1, VARINT, Number(m.seconds)), Known(2, VARINT, Number(m.nanoseconds))]
  }

  predicate IntervalOk(m: Interval) {
    m.seconds < TWO_64 && m.nanoseconds < TWO_32
  }

  function IntervalBytes(m: Interval): seq<byte>
    requires IntervalOk(m)
  {
    AllBytes(IntervalFields(m)) + m.unknown
  }

  predicate BlobOk(b: Option<seq<byte>>) {
    b.Some? ==> |b.value| < TWO_63
  }

  predicate AttributeOk(m: Attribute) {
    && m.key < TWO_32
    && BlobOk(m.skey) && BlobOk(m.sval) && BlobOk(m.bval)
    && (m.ival.Some? ==> IsInt64(m.ival.value))
    && (m.tval.Some? ==> IntervalOk(m.tval.value) && |IntervalBytes(m.tval.value)| < TWO_63)
    && (m.fval.Some? ==> m.fval.value < TWO_64)
  }

  function AttributeFields(m: Attribute): seq<Known>
    requires AttributeOk(m)
  {
    [Known(1, VARINT, Number(m.key))]
    + OptBlob(2, m.skey)
    + OptNum(3, VARINT, if m.ival.Some? then Some(Zigzag(m.ival.value)) else None)
    + OptBlob(4, m.sval)
    + OptBlob(5, m.bval)
    + OptBlob(6, if m.tval.Some? then Some(IntervalBytes(m.tval.value)) else None)
    + OptNum(7, VARINT, if m.boolval.Some? then Some(if m.boolval.value then 1 else 0) else None)
    + OptNum(8, FIXED64, m.fval)
  }

  function AttributeBytes(m: Attribute): seq<byte>
    requires AttributeOk(m)
  {
    AttributeWritable(m);
    AllBytes(AttributeFields(m)) + m.unknown
  }

  lemma AttributeWritable(m: Attribute)
    requires AttributeOk(m)
    ensures AllWritable(AttributeFields(m))
  {
  }

  predicate TagOk(m: Tag) {
    |m.name| < TWO_63 && BlobOk(m.value)
  }

  function TagFields(m: Tag): seq<Known> {
    [Known(1, BLOB, Bytes(m.name))] + OptBlob(2, m.value)
  }

  function TagBytes(m: Tag): seq<byte>
    requires TagOk(m)
  {
    AllBytes(TagFields(m)) + m.unknown
  }

  predicate MessageOk(m: Message) {
    && IsInt32(m.version)
    && (m.timestamp.Some? ==> IntervalOk(m.timestamp.value) && |IntervalBytes(m.timestamp.value)| < TWO_63)
    && (m.typ.Some? ==> m.typ.value < TWO_32)
    && (forall a | a in m.attributes :: AttributeOk(a) && |AttributeBytes(a)| < TWO_63)
    && BlobOk(m.session)
    && (forall t | t in m.tags :: TagOk(t) && |TagBytes(t)| < TWO_63)
  }

  function AttributeList(s: seq<Attribute>): (ks: seq<Known>)
    requires forall a | a in s :: AttributeOk(a)
    ensures |ks| == |s|
  {
    if s == [] then [] else [Known(3, BLOB, Bytes(AttributeBytes(s[0])))] + AttributeList(s[1..])
  }

  function TagList(s: seq<Tag>): (ks: seq<Known>)
    requires forall t | t in s :: TagOk(t)
    ensures |ks| == |s|
  {
    if s == [] then [] else [Known(5, BLOB, Bytes(TagBytes(s[0])))] + TagList(s[1..])
  }

  function MessageFields(m: Message): seq<Known>
    requires MessageOk(m) && m.timestamp.Some? && m.typ.Some?
  {
    [Known(1, BLOB, Bytes(IntervalBytes(m.timestamp.value))), Known(2, VARINT, Number(m.typ.value))]
    + AttributeList(m.attributes)
    + OptBlob(4, m.session)
    + TagList(m.tags)
    + [Known(6, VARINT, Number(Extend(m.version)))]
  }

  lemma {:induction false} AttributeListWritable(s: seq<Attribute>)
    requires forall a | a in s :: AttributeOk(a) && |AttributeBytes(a)| < TWO_63
    ensures AllWritable(AttributeList(s)) && forall k | k in AttributeList(s) :: k.num == 3 && k.kind == BLOB
    decreases |s|
  {
    if s != [] { AttributeListWritable(s[1..]); }
  }

  lemma {:induction false} TagListWritable(s: seq<Tag>)
    requires forall t | t in s :: TagOk(t) && |TagBytes(t)| < TWO_63
    ensures AllWritable(TagList(s)) && forall k | k in TagList(s) :: k.num == 5 && k.kind == BLOB
    decreases |s|
  {
    if s != [] { TagListWritable(s[1..]); }
  }

  lemma MessageWritable(m: Message)
    requires MessageOk(m) && m.timestamp.Some? && m.typ.Some?
    ensures AllWritable(MessageFields(m)) && forall k | k in MessageFields(m) :: MessageKind(k.num) == k.kind
  {
    AttributeListWritable(m.attributes);
    TagListWritable(m.tags);
  }

  /** `Marshal`: a message without timestamp or type is refused. */
  function MessageBytes(m: Message): Result<seq<byte>>
    requires MessageOk(m)
  {
    if m.timestamp.None? then Fail(RequiredNotSet(1))
    else if m.typ.None? then Fail(RequiredNotSet(2))
    else
      MessageWritable(m);
      Ok(AllBytes(MessageFields(m)) + m.unknown)
  }

  predicate HeaderOk(m: StreamHeader) {
    && (m.compression.Some? ==> IsInt32(m.compression.value))
    && (m.mode.Some? ==> IsInt32(m.mode.value))
  }

  function HeaderFields(m: StreamHeader): seq<Known>
    requires HeaderOk(m)
  {
    OptNum(1, VARINT, if m.compression.Some? then Some(Extend(m.compression.value)) else None)
    + OptNum(2, VARINT, if m.mode.Some? then Some(Extend(m.mode.value)) else None)
  }

  function HeaderBytes(m: StreamHeader): seq<byte>
    requires HeaderOk(m)
  {
    AllBytes(HeaderFields(m)) + m.unknown
  }
}
