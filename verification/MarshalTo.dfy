/** The `MarshalTo` methods: they write exactly the bytes of the message, stay inside a buffer that has room
    for `Size()` bytes, and leave the rest of the buffer alone. */
module MarshalTo {

  import opened Wrappers
  import opened Bits
  import opened Wire
  import opened Messages
  import opened Layout
  import Seqs
  import Varint

  // ---------------------------------------------------------------------------------------------
  // Writing into a buffer
  // ---------------------------------------------------------------------------------------------

  /** `now` is `before` with `done` written at `base`. */
  ghost predicate Wrote(now: seq<byte>, before: seq<byte>, base: nat, done: seq<byte>) {
    base + |done| <= |before| && now == before[..base] + done + before[base + |done|..]
  }

  lemma WroteNothing(before: seq<byte>, base: nat)
    requires base <= |before|
    ensures Wrote(before, before, base, [])
  {
  }

  lemma WroteMore(now: seq<byte>, later: seq<byte>, before: seq<byte>, base: nat, done: seq<byte>, more: seq<byte>)
    requires Wrote(now, before, base, done) && Wrote(later, now, base + |done|, more)
    ensures Wrote(later, before, base, done + more)
  {
    var i := base + |done|;
    assert |now| == |before|;
    assert now[..i] == before[..base] + done;
    assert now[i + |more|..] == before[i + |more|..];
    hide Wrote;
    Seqs.Assoc(before[..base], done, more);
  }

  method PutVarint(data: array<byte>, i: nat, v: nat) returns (next: nat)
    requires i + |Varint.Encode(v)| <= data.Length
    modifies data
    ensures next == i + |Varint.Encode(v)| && Wrote(data[..], old(data[..]), i, Varint.Encode(v))
  {
    hide Varint.Encode;
    next := Varint.Put(data, i, v);
    assert old(data[..i]) == old(data[..])[..i] && old(data[next..]) == old(data[..])[next..];
  }

  method PutByte(data: array<byte>, i: nat, b: byte) returns (next: nat)
    requires i < data.Length
    modifies data
    ensures next == i + 1 && Wrote(data[..], old(data[..]), i, [b])
  {
    data[i] := b;
    next := i + 1;
    assert data[..] == old(data[..])[i := b];
  }

  /** `i += copy(data[i:], bytes)`. */
  method Copy(data: array<byte>, i: nat, bytes: seq<byte>) returns (next: nat)
    requires i + |bytes| <= data.Length
    modifies data
    ensures next == i + |bytes| && Wrote(data[..], old(data[..]), i, bytes)
  {
    for k := 0 to |bytes|
      invariant forall j | 0 <= j < data.Length ::
        data[j] == if i <= j < i + k then bytes[j - i] else old(data[j])
    {
      data[i + k] := bytes[k];
    }
    next := i + |bytes|;
    assert data[..] == old(data[..])[..i] + bytes + old(data[..])[next..];
  }

  /** A tag byte and a varint. */
  method PutNumber(data: array<byte>, i: nat, tag: byte, v: nat) returns (next: nat)
    requires i + 1 + |Varint.Encode(v)| <= data.Length
    modifies data
    ensures next == i + 1 + |Varint.Encode(v)| && Wrote(data[..], old(data[..]), i, [tag] + Varint.Encode(v))
  {
    hide Varint.Encode, Wrote;
    next := PutByte(data, i, tag);
    ghost var mid := data[..];
    next := PutVarint(data, next, v);
    WroteMore(mid, data[..], old(data[..]), i, [tag], Varint.Encode(v));
  }

  /** A tag byte, a length and that many bytes. */
  method PutBlob(data: array<byte>, i: nat, tag: byte, b: seq<byte>) returns (next: nat)
    requires i + |BlobBytes(tag, b)| <= data.Length
    modifies data
    ensures next == i + |BlobBytes(tag, b)| && Wrote(data[..], old(data[..]), i, BlobBytes(tag, b))
  {
    hide Varint.Encode, Wrote;
    next := PutNumber(data, i, tag, |b|);
    ghost var mid := data[..];
    next := Copy(data, next, b);
    WroteMore(mid, data[..], old(data[..]), i, [tag] + Varint.Encode(|b|), b);
  }

  /** `uint8(v >> 8 * n)`. */
  function ByteAt(v: nat, n: nat): byte {
    if n == 0 then (v % 256) as byte else ByteAt(v / 256, n - 1)
  }

  lemma {:induction false} BytesAt(v: nat, n: nat, k: nat)
    requires k < n
    ensures LittleEndianBytes(v, n)[k] == ByteAt(v, k)
    decreases n
  {
    if k > 0 {
      BytesAt(v / 256, n - 1, k - 1);
    }
  }

  /** `encodeFixed64Log`: eight bytes, lowest first. */
  method PutFixed64(data: array<byte>, i: nat, v: nat) returns (next: nat)
    requires i + 8 <= data.Length
    modifies data
    ensures next == i + 8 && Wrote(data[..], old(data[..]), i, LittleEndianBytes(v, 8))
  {
    hide ByteAt, LittleEndianBytes;
    data[i] := ByteAt(v, 0);
    data[i + 1] := ByteAt(v, 1);
    data[i + 2] := ByteAt(v, 2);
    data[i + 3] := ByteAt(v, 3);
    data[i + 4] := ByteAt(v, 4);
    data[i + 5] := ByteAt(v, 5);
    data[i + 6] := ByteAt(v, 6);
    data[i + 7] := ByteAt(v, 7);
    forall k | 0 <= k < 8
      ensures data[i + k] == LittleEndianBytes(v, 8)[k]
    {
      BytesAt(v, 8, k);
    }
    assert data[..] == old(data[..])[..i] + LittleEndianBytes(v, 8) + old(data[..])[i + 8..];
    return i + 8;
  }

  // ---------------------------------------------------------------------------------------------
  // MarshalTo
  // ---------------------------------------------------------------------------------------------

  /** The next part is written behind `done`, which started at `base`. */
  method AddBlob(
    data: array<byte>, i: nat, tag: byte, b: Option<seq<byte>>, ghost before: seq<byte>, ghost base: nat,
    ghost done: seq<byte>)
    returns (next: nat)
    requires Wrote(data[..], before, base, done) && i == base + |done| && i + |OptBlobBytes(tag, b)| <= data.Length
    modifies data
    ensures next == i + |OptBlobBytes(tag, b)| && Wrote(data[..], before, base, done + OptBlobBytes(tag, b))
  {
    hide Varint.Encode, BlobBytes, Wrote;
    ghost var mid := data[..];
    if b.Some? {
      next := PutBlob(data, i, tag, b.value);
    } else {
      WroteNothing(data[..], i);
      next := i;
    }
    WroteMore(mid, data[..], before, base, done, OptBlobBytes(tag, b));
  }

  method AddNumber(
    data: array<byte>, i: nat, tag: byte, v: Option<nat>, ghost before: seq<byte>, ghost base: nat,
    ghost done: seq<byte>)
    returns (next: nat)
    requires Wrote(data[..], before, base, done) && i == base + |done| && i + |OptNumberBytes(tag, v)| <= data.Length
    modifies data
    ensures next == i + |OptNumberBytes(tag, v)| && Wrote(data[..], before, base, done + OptNumberBytes(tag, v))
  {
    hide Varint.Encode, Wrote;
    ghost var mid := data[..];
    if v.Some? {
      next := PutNumber(data, i, tag, v.value);
    } else {
      WroteNothing(data[..], i);
      next := i;
    }
    WroteMore(mid, data[..], before, base, done, OptNumberBytes(tag, v));
  }

  method AddFixed(
    data: array<byte>, i: nat, tag: byte, v: Option<nat>, ghost before: seq<byte>, ghost base: nat,
    ghost done: seq<byte>)
    returns (next: nat)
    requires Wrote(data[..], before, base, done) && i == base + |done| && i + |OptFixedBytes(tag, v)| <= data.Length
    modifies data
    ensures next == i + |OptFixedBytes(tag, v)| && Wrote(data[..], before, base, done + OptFixedBytes(tag, v))
  {
    hide LittleEndianBytes, Wrote;
    ghost var mid := data[..];
    if v.Some? {
      next := PutByte(data, i, tag);
      ghost var half := data[..];
      next := PutFixed64(data, next, v.value);
      WroteMore(half, data[..], mid, i, [tag], LittleEndianBytes(v.value, 8));
    } else {
      WroteNothing(data[..], i);
      next := i;
    }
    WroteMore(mid, data[..], before, base, done, OptFixedBytes(tag, v));
  }

  /** The unknown fields come last. */
  method AddUnknown(
    data: array<byte>, i: nat, b: seq<byte>, ghost before: seq<byte>, ghost base: nat, ghost done: seq<byte>)
    returns (next: nat)
    requires Wrote(data[..], before, base, done) && i == base + |done| && i + |b| <= data.Length
    modifies data
    ensures next == i + |b| && Wrote(data[..], before, base, done + b)
  {
    hide Wrote;
    ghost var mid := data[..];
    next := Copy(data, i, b);
    WroteMore(mid, data[..], before, base, done, b);
  }

  /** `Interval.MarshalTo(data[base:])`. */
  method MarshalInterval(m: Interval, data: array<byte>, base: nat) returns (n: nat)
    requires IntervalOk(m) && base + |IntervalBytes(m)| <= data.Length
    modifies data
    ensures n == |IntervalBytes(m)| && Wrote(data[..], old(data[..]), base, IntervalBytes(m))
  {
    IntervalLayout(m);
    NumberLength(0x08, m.seconds);
    NumberLength(0x10, m.nanoseconds);
    hide IntervalBytes, Varint.Encode, Wrote;
    ghost var before, a, b := data[..], NumberBytes(0x08, m.seconds), NumberBytes(0x10, m.nanoseconds);
    var i := PutNumber(data, base, 0x08, m.seconds);
    i := AddNumber(data, i, 0x10, Some(m.nanoseconds), before, base, a);
    i := AddUnknown(data, i, m.unknown, before, base, a + b);
    n := i - base;
  }

  /** The optional nested interval of an attribute: tag, length and the interval itself. */
  method AddInterval(data: array<byte>, i: nat, tag: byte, m: Option<Interval>, ghost part: seq<byte>,
                     ghost before: seq<byte>, ghost base: nat, ghost done: seq<byte>)
    returns (next: nat)
    requires m.Some? ==> IntervalOk(m.value) && part == BlobBytes(tag, IntervalBytes(m.value))
    requires m.None? ==> part == []
    requires Wrote(data[..], before, base, done) && i == base + |done| && i + |part| <= data.Length
    modifies data
    ensures next == i + |part| && Wrote(data[..], before, base, done + part)
  {
    hide IntervalBytes, Varint.Encode, Wrote;
    ghost var mid := data[..];
    if m.Some? {
      var size := SizeInterval(m.value);
      next := PutNumber(data, i, tag, size);
      ghost var half := data[..];
      var n := MarshalInterval(m.value, data, next);
      WroteMore(half, data[..], mid, i, [tag] + Varint.Encode(size), IntervalBytes(m.value));
      next := next + n;
    } else {
      WroteNothing(data[..], i);
      next := i;
    }
    WroteMore(mid, data[..], before, base, done, part);
  }

  lemma AttributeLengths(m: Attribute)
    requires AttributeOk(m)
    ensures |AttributeBytes(m)|
         == |AttributeHead(m)| + |OptBlobBytes(0x2a, m.bval)| + |OptBlobBytes(0x32, TvalBytes(m))|
                                   + |OptNumberBytes(0x38, BoolNumber(m))| + |OptFixedBytes(0x41, m.fval)| + |m.unknown|
    ensures |AttributeHead(m)| == |NumberBytes(0x08, m.key)| + |OptBlobBytes(0x12, m.skey)|
                                  + |OptNumberBytes(0x18, IvalNumber(m))| + |OptBlobBytes(0x22, m.sval)|
    ensures m.tval.Some? ==> IntervalOk(m.tval.value)
    ensures m.tval.Some? ==> OptBlobBytes(0x32, TvalBytes(m)) == BlobBytes(0x32, IntervalBytes(m.tval.value))
    ensures m.tval.None? ==> OptBlobBytes(0x32, TvalBytes(m)) == []
    ensures |NumberBytes(0x08, m.key)| == 1 + |Varint.Encode(m.key)|
    ensures NumberBytes(0x08, m.key) == [0x08] + Varint.Encode(m.key)
  {
    AttributeLayout(m);
    AttributeHeadIs(m);
    hide AttributeBytes, AttributeHead, OptNumberBytes, OptFixedBytes;
  }

  /** The fields of `Attribute.MarshalTo` from the key to `sval`. */
  method PutAttributeHead(m: Attribute, data: array<byte>, base: nat) returns (i: nat)
    requires AttributeOk(m) && base + |AttributeHead(m)| <= data.Length
    modifies data
    ensures i == base + |AttributeHead(m)| && Wrote(data[..], old(data[..]), base, AttributeHead(m))
  {
    AttributeHeadIs(m);
    AttributeLengths(m);
    hide *;
    ghost var before := data[..];
    ghost var d1 := NumberBytes(0x08, m.key);
    ghost var d2 := d1 + OptBlobBytes(0x12, m.skey);
    ghost var d3 := d2 + OptNumberBytes(0x18, IvalNumber(m));
    i := PutNumber(data, base, 0x08, m.key);
    i := AddBlob(data, i, 0x12, m.skey, before, base, d1);
    i := AddNumber(data, i, 0x18, IvalNumber(m), before, base, d2);
    i := AddBlob(data, i, 0x22, m.sval, before, base, d3);
  }

  /** `Attribute.MarshalTo(data[base:])`. */
  method MarshalAttribute(m: Attribute, data: array<byte>, base: nat) returns (n: nat)
    requires AttributeOk(m) && base + |AttributeBytes(m)| <= data.Length
    modifies data
    ensures n == |AttributeBytes(m)| && Wrote(data[..], old(data[..]), base, AttributeBytes(m))
  {
    AttributeLayout(m);
    AttributeLengths(m);
    hide *;
    ghost var before := data[..];
    ghost var d1 := AttributeHead(m);
    ghost var d2 := d1 + OptBlobBytes(0x2a, m.bval);
    ghost var d3 := d2 + OptBlobBytes(0x32, TvalBytes(m));
    ghost var d4 := d3 + OptNumberBytes(0x38, BoolNumber(m));
    ghost var d5 := d4 + OptFixedBytes(0x41, m.fval);
    var i := PutAttributeHead(m, data, base);
    i := AddBlob(data, i, 0x2a, m.bval, before, base, d1);
    i := AddInterval(data, i, 0x32, m.tval, OptBlobBytes(0x32, TvalBytes(m)), before, base, d2);
    i := AddNumber(data, i, 0x38, BoolNumber(m), before, base, d3);
    i := AddFixed(data, i, 0x41, m.fval, before, base, d4);
    i := AddUnknown(data, i, m.unknown, before, base, d5);
    n := i - base;
  }

  method MarshalTag(m: Tag, data: array<byte>, base: nat) returns (n: nat)
    requires TagOk(m) && base + |TagBytes(m)| <= data.Length
    modifies data
    ensures n == |TagBytes(m)| && Wrote(data[..], old(data[..]), base, TagBytes(m))
  {
    TagLayout(m);
    hide TagBytes, Varint.Encode, Wrote, BlobBytes, OptBlobBytes;
    ghost var before, d1 := data[..], BlobBytes(0x0a, m.name);
    var i := PutBlob(data, base, 0x0a, m.name);
    i := AddBlob(data, i, 0x12, m.value, before, base, d1);
    i := AddUnknown(data, i, m.unknown, before, base, d1 + OptBlobBytes(0x12, m.value));
    n := i - base;
  }

  method MarshalHeader(m: StreamHeader, data: array<byte>, base: nat) returns (n: nat)
    requires HeaderOk(m) && base + |HeaderBytes(m)| <= data.Length
    modifies data
    ensures n == |HeaderBytes(m)| && Wrote(data[..], old(data[..]), base, HeaderBytes(m))
  {
    HeaderLayout(m);
    hide HeaderBytes, Wrote, OptNumberBytes, ExtendOpt;
    ghost var before := data[..];
    ghost var d1 := OptNumberBytes(0x08, ExtendOpt(m.compression));
    WroteNothing(before, base);
    assert [] + d1 == d1;
    var i := AddNumber(data, base, 0x08, ExtendOpt(m.compression), before, base, []);
    i := AddNumber(data, i, 0x10, ExtendOpt(m.mode), before, base, d1);
    i := AddUnknown(data, i, m.unknown, before, base, d1 + OptNumberBytes(0x10, ExtendOpt(m.mode)));
    n := i - base;
  }

  /** The loop over the attributes of a message. */
  method PutAttributes(s: seq<Attribute>, data: array<byte>, base: nat) returns (i: nat)
    requires (forall a | a in s :: AttributeOk(a)) && base + |AttributesBytes(s)| <= data.Length
    modifies data
    ensures i == base + |AttributesBytes(s)| && Wrote(data[..], old(data[..]), base, AttributesBytes(s))
  {
    hide AttributeBytes, AttributeOk, BlobBytes, Varint.Encode, Wrote;
    ghost var before := data[..];
    WroteNothing(before, base);
    i := base;
    for k := 0 to |s|
      invariant i == base + |AttributesBytes(s[..k])| && Wrote(data[..], before, base, AttributesBytes(s[..k]))
      invariant data.Length == |before|
    {
      AttributesSnoc(s, k);
      BlobParts(0x1a, AttributeBytes(s[k]));
      hide AttributesBytes;
      ghost var mid := data[..];
      var size := SizeAttribute(s[k]);
      i := PutNumber(data, i, 0x1a, size);
      ghost var half := data[..];
      var n := MarshalAttribute(s[k], data, i);
      ghost var done := |AttributesBytes(s[..k])|;
      WroteMore(half, data[..], mid, base + done, [0x1a] + Varint.Encode(size), AttributeBytes(s[k]));
      WroteMore(mid, data[..], before, base, AttributesBytes(s[..k]), BlobBytes(0x1a, AttributeBytes(s[k])));
      i := i + n;
    }
    assert s[..|s|] == s;
  }

  lemma BlobParts(tag: byte, b: seq<byte>)
    ensures BlobBytes(tag, b) == ([tag] + Varint.Encode(|b|)) + b
    ensures |BlobBytes(tag, b)| == 1 + |Varint.Encode(|b|)| + |b|
  {
  }

  /** The loop over the tags of a message. */
  method PutTags(s: seq<Tag>, data: array<byte>, base: nat) returns (i: nat)
    requires (forall t | t in s :: TagOk(t)) && base + |TagsBytes(s)| <= data.Length
    modifies data
    ensures i == base + |TagsBytes(s)| && Wrote(data[..], old(data[..]), base, TagsBytes(s))
  {
    hide TagBytes, TagOk, BlobBytes, Varint.Encode, Wrote;
    ghost var before := data[..];
    WroteNothing(before, base);
    i := base;
    for k := 0 to |s|
      invariant i == base + |TagsBytes(s[..k])| && Wrote(data[..], before, base, TagsBytes(s[..k]))
      invariant data.Length == |before|
    {
      TagsSnoc(s, k);
      BlobParts(0x2a, TagBytes(s[k]));
      hide TagsBytes;
      ghost var mid := data[..];
      var size := SizeTag(s[k]);
      i := PutNumber(data, i, 0x2a, size);
      ghost var half := data[..];
      var n := MarshalTag(s[k], data, i);
      WroteMore(half, data[..], mid, base + |TagsBytes(s[..k])|, [0x2a] + Varint.Encode(size), TagBytes(s[k]));
      WroteMore(mid, data[..], before, base, TagsBytes(s[..k]), BlobBytes(0x2a, TagBytes(s[k])));
      i := i + n;
    }
    assert s[..|s|] == s;
  }

  /** `Message.MarshalTo`: a message without timestamp or type is refused, otherwise exactly the message's
      bytes are written. */
  method MarshalMessage(m: Message, data: array<byte>) returns (r: Result<nat>)
    requires MessageOk(m) && MessageSize(m) <= data.Length
    modifies data
    ensures r.Ok? <==> MessageBytes(m).Ok?
    ensures r.Fail? ==> r.error == MessageBytes(m).error
    ensures r.Ok? ==> r.value == |MessageBytes(m).value| && Wrote(data[..], old(data[..]), 0, MessageBytes(m).value)
  {
    MessageOkParts(m);
    if m.timestamp.None? {
      return Fail(RequiredNotSet(1));
    }
    if m.typ.None? {
      var partial := PutTimestamp(m, data);
      return Fail(RequiredNotSet(2));
    }
    MessageLayout(m);
    MessageNumbers(m);
    hide *;
    ghost var before := data[..];
    ghost var d1 := OptBlobBytes(0x0a, TimestampBytes(m));
    ghost var d2 := d1 + OptNumberBytes(0x10, m.typ);
    ghost var d3 := d2 + AttributesBytes(m.attributes);
    ghost var d4 := d3 + OptBlobBytes(0x22, m.session);
    ghost var d5 := d4 + TagsBytes(m.tags);
    ghost var d6 := d5 + NumberBytes(0x30, Extend(m.version));
    var i := PutTimestamp(m, data);
    i := AddNumber(data, i, 0x10, m.typ, before, 0, d1);
    i := AddAttributes(m.attributes, data, i, before, d2);
    i := AddBlob(data, i, 0x22, m.session, before, 0, d3);
    i := AddTags(m.tags, data, i, before, d4);
    i := AddVersion(m.version, data, i, before, d5);
    i := AddUnknown(data, i, m.unknown, before, 0, d6);
    return Ok(i);
  }

  method AddAttributes(s: seq<Attribute>, data: array<byte>, i: nat, ghost before: seq<byte>, ghost done: seq<byte>)
    returns (next: nat)
    requires (forall a | a in s :: AttributeOk(a))
    requires Wrote(data[..], before, 0, done) && i == |done| && i + |AttributesBytes(s)| <= data.Length
    modifies data
    ensures next == i + |AttributesBytes(s)| && Wrote(data[..], before, 0, done + AttributesBytes(s))
  {
    hide *;
    ghost var mid := data[..];
    next := PutAttributes(s, data, i);
    WroteMore(mid, data[..], before, 0, done, AttributesBytes(s));
  }

  method AddTags(s: seq<Tag>, data: array<byte>, i: nat, ghost before: seq<byte>, ghost done: seq<byte>)
    returns (next: nat)
    requires (forall t | t in s :: TagOk(t))
    requires Wrote(data[..], before, 0, done) && i == |done| && i + |TagsBytes(s)| <= data.Length
    modifies data
    ensures next == i + |TagsBytes(s)| && Wrote(data[..], before, 0, done + TagsBytes(s))
  {
    hide *;
    ghost var mid := data[..];
    next := PutTags(s, data, i);
    WroteMore(mid, data[..], before, 0, done, TagsBytes(s));
  }

  method AddVersion(v: int, data: array<byte>, i: nat, ghost before: seq<byte>, ghost done: seq<byte>)
    returns (next: nat)
    requires IsInt32(v)
    requires Wrote(data[..], before, 0, done) && i == |done| && i + |NumberBytes(0x30, Extend(v))| <= data.Length
    modifies data
    ensures next == i + |NumberBytes(0x30, Extend(v))|
    ensures Wrote(data[..], before, 0, done + NumberBytes(0x30, Extend(v)))
  {
    hide Varint.Encode, Wrote;
    ghost var mid := data[..];
    next := PutNumber(data, i, 0x30, Extend(v));
    WroteMore(mid, data[..], before, 0, done, NumberBytes(0x30, Extend(v)));
  }

  lemma MessageNumbers(m: Message)
    requires MessageOk(m) && m.typ.Some?
    ensures OptNumberBytes(0x10, m.typ) == [0x10] + Varint.Encode(m.typ.value)
    ensures |OptNumberBytes(0x10, m.typ)| == 1 + |Varint.Encode(m.typ.value)|
    ensures NumberBytes(0x30, Extend(m.version)) == [0x30] + Varint.Encode(Extend(m.version))
    ensures |NumberBytes(0x30, Extend(m.version))| == 1 + |Varint.Encode(Extend(m.version))|
  {
  }

  method PutTimestamp(m: Message, data: array<byte>) returns (i: nat)
    requires MessageOk(m) && m.timestamp.Some? && MessageSize(m) <= data.Length
    modifies data
    ensures i == |OptBlobBytes(0x0a, TimestampBytes(m))|
    ensures Wrote(data[..], old(data[..]), 0, OptBlobBytes(0x0a, TimestampBytes(m)))
  {
    MessageOkParts(m);
    TimestampIs(m);
    hide *;
    WroteNothing(data[..], 0);
    assert [] + OptBlobBytes(0x0a, TimestampBytes(m)) == OptBlobBytes(0x0a, TimestampBytes(m));
    i := AddInterval(data, 0, 0x0a, m.timestamp, OptBlobBytes(0x0a, TimestampBytes(m)), data[..], 0, []);
  }

  lemma TimestampIs(m: Message)
    requires MessageOk(m) && m.timestamp.Some?
    ensures OptBlobBytes(0x0a, TimestampBytes(m)) == BlobBytes(0x0a, IntervalBytes(m.timestamp.value))
  {
  }

  /** The size law: in a buffer of exactly `Size()` bytes, `MarshalTo` fills every byte and no more. */
  method MarshalNew(m: Message) returns (r: Result<seq<byte>>)
    requires MessageOk(m)
    ensures r == MessageBytes(m)
  {
    Marshals(m);
    hide *;
    var size := SizeMessage(m);
    var data := new byte[size];
    ghost var before := data[..];
    var n := MarshalMessage(m, data);
    if n.Fail? {
      return Fail(n.error);
    }
    WholeBuffer(data[..], before, MessageBytes(m).value);
    assert data[..n.value] == data[..];
    return Ok(data[..n.value]);
  }

  lemma Marshals(m: Message)
    requires MessageOk(m)
    ensures MessageBytes(m).Ok? <==> m.timestamp.Some? && m.typ.Some?
    ensures MessageBytes(m).Ok? ==> |MessageBytes(m).value| == MessageSize(m)
  {
    if m.timestamp.Some? && m.typ.Some? { MessageLayout(m); }
  }

  lemma WholeBuffer(now: seq<byte>, before: seq<byte>, done: seq<byte>)
    requires Wrote(now, before, 0, done) && |before| == |done|
    ensures now == done
  {
  }
}
