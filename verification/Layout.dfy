/** The layout of each message as a concatenation of parts, and the `Size` methods that add up their lengths. */
module Layout {

  import opened Wrappers
  import opened Bits
  import opened Wire
  import opened Messages
  import Varint

  // ---------------------------------------------------------------------------------------------
  // The layout of each message as a concatenation of parts
  // ---------------------------------------------------------------------------------------------

  function BlobBytes(tag: byte, b: seq<byte>): seq<byte> {
    [tag] + Varint.Encode(|b|) + b
  }

  function NumberBytes(tag: byte, v: nat): seq<byte> {
    [tag] + Varint.Encode(v)
  }

  function OptBlobBytes(tag: byte, b: Option<seq<byte>>): seq<byte> {
    if b.Some? then BlobBytes(tag, b.value) else []
  }

  function OptNumberBytes(tag: byte, v: Option<nat>): seq<byte> {
    if v.Some? then NumberBytes(tag, v.value) else []
  }

  function OptFixedBytes(tag: byte, v: Option<nat>): seq<byte> {
    if v.Some? then [tag] + LittleEndianBytes(v.value, 8) else []
  }

  lemma PartBytes(num: int, b: Option<seq<byte>>, v: Option<nat>)
    requires 1 <= num <= 15 && BlobOk(b) && (v.Some? ==> v.value < TWO_64)
    ensures AllWritable(OptBlob(num, b)) && AllBytes(OptBlob(num, b)) == OptBlobBytes((num * 8 + BLOB) as byte, b)
    ensures AllWritable(OptNum(num, VARINT, v))
    ensures AllBytes(OptNum(num, VARINT, v)) == OptNumberBytes((num * 8 + VARINT) as byte, v)
    ensures AllWritable(OptNum(num, FIXED64, v))
    ensures AllBytes(OptNum(num, FIXED64, v)) == OptFixedBytes((num * 8 + FIXED64) as byte, v)
  {
    hide Varint.Encode, LittleEndianBytes;
    if b.Some? { SingleBytes(Known(num, BLOB, Bytes(b.value))); }
    if v.Some? {
      SingleBytes(Known(num, VARINT, Number(v.value)));
      SingleBytes(Known(num, FIXED64, Number(v.value)));
    }
  }

  lemma SingleBytes(k: Known)
    requires Writable(k)
    ensures AllWritable([k]) && AllBytes([k]) == KnownBytes(k)
    ensures k.payload.Bytes? ==> KnownBytes(k) == BlobBytes((k.num * 8 + k.kind) as byte, k.payload.b)
  {
    hide Varint.Encode, LittleEndianBytes;
    assert [k][1..] == [];
    assert AllBytes([k][1..]) == [];
  }

  lemma IntervalLayout(m: Interval)
    requires IntervalOk(m)
    ensures IntervalBytes(m) == NumberBytes(0x08, m.seconds) + NumberBytes(0x10, m.nanoseconds) + m.unknown
  {
    var k1, k2 := Known(1, VARINT, Number(m.seconds)), Known(2, VARINT, Number(m.nanoseconds));
    SingleBytes(k1);
    SingleBytes(k2);
    AllBytesAppend([k1], [k2]);
    hide Varint.Encode, AllBytes;
    assert IntervalFields(m) == [k1] + [k2];
  }

  function TvalBytes(m: Attribute): Option<seq<byte>>
    requires AttributeOk(m)
  {
    if m.tval.Some? then Some(IntervalBytes(m.tval.value)) else None
  }

  function IvalNumber(m: Attribute): Option<nat>
    requires AttributeOk(m)
  {
    if m.ival.Some? then Some(Zigzag(m.ival.value)) else None
  }

  function BoolNumber(m: Attribute): Option<nat> {
    if m.boolval.Some? then Some(if m.boolval.value then 1 else 0) else None
  }

  /** The bytes of an attribute up to its `sval`, in the order they are written. */
  function AttributeHead(m: Attribute): seq<byte>
    requires AttributeOk(m)
  {
    NumberBytes(0x08, m.key) + OptBlobBytes(0x12, m.skey) + OptNumberBytes(0x18, IvalNumber(m))
    + OptBlobBytes(0x22, m.sval)
  }

  lemma AttributeParts(m: Attribute)
    requires AttributeOk(m)
    ensures AllWritable([Known(1, VARINT, Number(m.key))])
    ensures AllBytes([Known(1, VARINT, Number(m.key))]) == NumberBytes(0x08, m.key)
    ensures AllWritable(OptBlob(2, m.skey)) && AllBytes(OptBlob(2, m.skey)) == OptBlobBytes(0x12, m.skey)
    ensures AllWritable(OptNum(3, VARINT, IvalNumber(m)))
    ensures AllBytes(OptNum(3, VARINT, IvalNumber(m))) == OptNumberBytes(0x18, IvalNumber(m))
    ensures AllWritable(OptBlob(4, m.sval)) && AllBytes(OptBlob(4, m.sval)) == OptBlobBytes(0x22, m.sval)
    ensures AllWritable(OptBlob(5, m.bval)) && AllBytes(OptBlob(5, m.bval)) == OptBlobBytes(0x2a, m.bval)
    ensures AllWritable(OptBlob(6, TvalBytes(m)))
    ensures AllBytes(OptBlob(6, TvalBytes(m))) == OptBlobBytes(0x32, TvalBytes(m))
    ensures AllWritable(OptNum(7, VARINT, BoolNumber(m)))
    ensures AllBytes(OptNum(7, VARINT, BoolNumber(m))) == OptNumberBytes(0x38, BoolNumber(m))
    ensures AllWritable(OptNum(8, FIXED64, m.fval))
    ensures AllBytes(OptNum(8, FIXED64, m.fval)) == OptFixedBytes(0x41, m.fval)
  {
    hide AllBytes, OptBlob, OptNum, OptBlobBytes, OptNumberBytes, OptFixedBytes, Varint.Encode;
    SingleBytes(Known(1, VARINT, Number(m.key)));
    PartBytes(2, m.skey, None);
    PartBytes(3, None, IvalNumber(m));
    PartBytes(4, m.sval, None);
    PartBytes(5, m.bval, None);
    PartBytes(6, TvalBytes(m), None);
    PartBytes(7, None, BoolNumber(m));
    PartBytes(8, None, m.fval);
  }

  lemma AttributeIs(m: Attribute)
    requires AttributeOk(m)
    ensures AllWritable(AttributeFields(m)) && AttributeBytes(m) == AllBytes(AttributeFields(m)) + m.unknown
    ensures AttributeFields(m)
         == [Known(1, VARINT, Number(m.key))] + OptBlob(2, m.skey) + OptNum(3, VARINT, IvalNumber(m))
              + OptBlob(4, m.sval) + OptBlob(5, m.bval) + OptBlob(6, TvalBytes(m))
              + OptNum(7, VARINT, BoolNumber(m)) + OptNum(8, FIXED64, m.fval)
  {
    AttributeWritable(m);
  }

  lemma AttributeLayout(m: Attribute)
    requires AttributeOk(m)
    ensures AttributeBytes(m) == AttributeHead(m) + OptBlobBytes(0x2a, m.bval) + OptBlobBytes(0x32, TvalBytes(m))
                                 + OptNumberBytes(0x38, BoolNumber(m)) + OptFixedBytes(0x41, m.fval) + m.unknown
  {
    hide *;
    AttributeParts(m);
    AttributeIs(m);
    var k := [Known(1, VARINT, Number(m.key))];
    var a2, a3, a4 := OptBlob(2, m.skey), OptNum(3, VARINT, IvalNumber(m)), OptBlob(4, m.sval);
    var a5, a6 := OptBlob(5, m.bval), OptBlob(6, TvalBytes(m));
    var a7, a8 := OptNum(7, VARINT, BoolNumber(m)), OptNum(8, FIXED64, m.fval);
    AllBytesAppend(k, a2);
    AllBytesAppend(k + a2, a3);
    AllBytesAppend(k + a2 + a3, a4);
    AllBytesAppend(k + a2 + a3 + a4, a5);
    AllBytesAppend(k + a2 + a3 + a4 + a5, a6);
    AllBytesAppend(k + a2 + a3 + a4 + a5 + a6, a7);
    AllBytesAppend(k + a2 + a3 + a4 + a5 + a6 + a7, a8);
    AttributeHeadIs(m);
  }

  lemma AttributeHeadIs(m: Attribute)
    requires AttributeOk(m)
    ensures AttributeHead(m) == NumberBytes(0x08, m.key) + OptBlobBytes(0x12, m.skey)
                                + OptNumberBytes(0x18, IvalNumber(m)) + OptBlobBytes(0x22, m.sval)
  {
  }

  lemma TagLayout(m: Tag)
    requires TagOk(m)
    ensures TagBytes(m) == BlobBytes(0x0a, m.name) + OptBlobBytes(0x12, m.value) + m.unknown
  {
    var k := Known(1, BLOB, Bytes(m.name));
    SingleBytes(k);
    PartBytes(2, m.value, None);
    AllBytesAppend([k], OptBlob(2, m.value));
    assert TagFields(m) == [k] + OptBlob(2, m.value);
  }

  function ExtendOpt(x: Option<int>): Option<nat>
    requires x.Some? ==> IsInt32(x.value)
  {
    if x.Some? then Some(Extend(x.value)) else None
  }

  lemma HeaderLayout(m: StreamHeader)
    requires HeaderOk(m)
    ensures HeaderBytes(m)
         == OptNumberBytes(0x08, ExtendOpt(m.compression)) + OptNumberBytes(0x10, ExtendOpt(m.mode)) + m.unknown
  {
    PartBytes(1, None, ExtendOpt(m.compression));
    PartBytes(2, None, ExtendOpt(m.mode));
    AllBytesAppend(OptNum(1, VARINT, ExtendOpt(m.compression)), OptNum(2, VARINT, ExtendOpt(m.mode)));
  }

  function TimestampBytes(m: Message): Option<seq<byte>>
    requires MessageOk(m)
  {
    if m.timestamp.Some? then Some(IntervalBytes(m.timestamp.value)) else None
  }

  function AttributesBytes(s: seq<Attribute>): seq<byte>
    requires forall a | a in s :: AttributeOk(a)
  {
    if s == [] then [] else BlobBytes(0x1a, AttributeBytes(s[0])) + AttributesBytes(s[1..])
  }

  function TagsBytes(s: seq<Tag>): seq<byte>
    requires forall t | t in s :: TagOk(t)
  {
    if s == [] then [] else BlobBytes(0x2a, TagBytes(s[0])) + TagsBytes(s[1..])
  }

  lemma {:induction false} AttributesLayout(s: seq<Attribute>)
    requires forall a | a in s :: AttributeOk(a) && |AttributeBytes(a)| < TWO_63
    ensures AllWritable(AttributeList(s)) && AllBytes(AttributeList(s)) == AttributesBytes(s)
    decreases |s|
  {
    AttributeListWritable(s);
    if s != [] {
      AttributesLayout(s[1..]);
      SingleBytes(Known(3, BLOB, Bytes(AttributeBytes(s[0]))));
      hide AttributeBytes, AttributeOk, KnownBytes, BlobBytes;
      assert AttributeList(s)[1..] == AttributeList(s[1..]);
    }
  }

  lemma {:induction false} TagsLayout(s: seq<Tag>)
    requires forall t | t in s :: TagOk(t) && |TagBytes(t)| < TWO_63
    ensures AllWritable(TagList(s)) && AllBytes(TagList(s)) == TagsBytes(s)
    decreases |s|
  {
    TagListWritable(s);
    if s != [] {
      TagsLayout(s[1..]);
      SingleBytes(Known(5, BLOB, Bytes(TagBytes(s[0]))));
      hide TagBytes, TagOk, KnownBytes, BlobBytes;
      assert TagList(s)[1..] == TagList(s[1..]);
    }
  }

  /** What `Size` adds up, whether or not the required fields are there. */
  function MessageSize(m: Message): nat
    requires MessageOk(m)
  {
    |OptBlobBytes(0x0a, TimestampBytes(m))| + |OptNumberBytes(0x10, m.typ)| + |AttributesBytes(m.attributes)|
    + |OptBlobBytes(0x22, m.session)| + |TagsBytes(m.tags)| + |NumberBytes(0x30, Extend(m.version))| + |m.unknown|
  }

  lemma BlobPart(num: int, b: seq<byte>)
    requires 1 <= num <= 15 && |b| < TWO_63
    ensures AllWritable([Known(num, BLOB, Bytes(b))])
    ensures AllBytes([Known(num, BLOB, Bytes(b))]) == BlobBytes((num * 8 + BLOB) as byte, b)
  {
    SingleBytes(Known(num, BLOB, Bytes(b)));
    hide AllBytes, Varint.Encode;
  }

  lemma NumberPart(num: int, v: nat)
    requires 1 <= num <= 15 && v < TWO_64
    ensures AllWritable([Known(num, VARINT, Number(v))])
    ensures AllBytes([Known(num, VARINT, Number(v))]) == NumberBytes((num * 8 + VARINT) as byte, v)
  {
    SingleBytes(Known(num, VARINT, Number(v)));
    hide AllBytes, Varint.Encode;
  }

  lemma MessageParts(m: Message)
    requires MessageOk(m) && m.timestamp.Some? && m.typ.Some?
    ensures var k1 := Known(1, BLOB, Bytes(IntervalBytes(m.timestamp.value)));
            var k2 := Known(2, VARINT, Number(m.typ.value));
            var k6 := Known(6, VARINT, Number(Extend(m.version)));
            && MessageFields(m)
               == [k1, k2] + AttributeList(m.attributes) + OptBlob(4, m.session) + TagList(m.tags) + [k6]
            && AllWritable([k1]) && AllWritable([k2]) && AllWritable([k6]) && AllWritable(MessageFields(m))
            && MessageBytes(m) == Ok(AllBytes(MessageFields(m)) + m.unknown)
            && [k1, k2] == [k1] + [k2]
            && AllBytes([k1]) == OptBlobBytes(0x0a, TimestampBytes(m))
            && AllBytes([k2]) == OptNumberBytes(0x10, m.typ)
            && AllBytes([k6]) == NumberBytes(0x30, Extend(m.version))
            && AllWritable(OptBlob(4, m.session)) && AllBytes(OptBlob(4, m.session)) == OptBlobBytes(0x22, m.session)
  {
    MessageWritable(m);
    BlobPart(1, IntervalBytes(m.timestamp.value));
    NumberPart(2, m.typ.value);
    NumberPart(6, Extend(m.version));
    PartBytes(4, m.session, None);
    hide AttributeList, TagList, IntervalBytes, AllBytes, AttributeOk, TagOk, AttributeBytes, TagBytes,
         Varint.Encode, Extend, NumberBytes, BlobBytes, KnownBytes;
  }

  lemma MessageLayout(m: Message)
    requires MessageOk(m) && m.timestamp.Some? && m.typ.Some?
    ensures MessageBytes(m)
         == Ok(OptBlobBytes(0x0a, TimestampBytes(m)) + OptNumberBytes(0x10, m.typ) + AttributesBytes(m.attributes)
               + OptBlobBytes(0x22, m.session) + TagsBytes(m.tags) + NumberBytes(0x30, Extend(m.version)) + m.unknown)
    ensures |MessageBytes(m).value| == MessageSize(m)
  {
    MessageParts(m);
    AttributesLayout(m.attributes);
    TagsLayout(m.tags);
    hide AttributeList, TagList, IntervalBytes, AllBytes, AttributeOk, TagOk, AttributeBytes, TagBytes,
         Varint.Encode, Extend, MessageBytes, MessageFields, OptBlobBytes, OptNumberBytes, NumberBytes,
         AttributesBytes, TagsBytes, OptBlob, TimestampBytes;
    var k1, k2 := [Known(1, BLOB, Bytes(IntervalBytes(m.timestamp.value)))], [Known(2, VARINT, Number(m.typ.value))];
    var k6 := [Known(6, VARINT, Number(Extend(m.version)))];
    var a3, a4, a5 := AttributeList(m.attributes), OptBlob(4, m.session), TagList(m.tags);
    AllBytesAppend(k1, k2);
    AllBytesAppend(k1 + k2, a3);
    AllBytesAppend(k1 + k2 + a3, a4);
    AllBytesAppend(k1 + k2 + a3 + a4, a5);
    AllBytesAppend(k1 + k2 + a3 + a4 + a5, k6);
  }

  // ---------------------------------------------------------------------------------------------
  // Size
  // ---------------------------------------------------------------------------------------------

  method SizeInterval(m: Interval) returns (n: nat)
    requires IntervalOk(m)
    ensures n == |IntervalBytes(m)|
  {
    IntervalLayout(m);
    hide IntervalBytes, Varint.Encode;
    var a := Varint.SizeOf(m.seconds);
    var b := Varint.SizeOf(m.nanoseconds);
    n := 1 + a;
    n := n + 1 + b;
    n := n + |m.unknown|;
  }

  /** `1 + l + sovLog(uint64(l))` if the field is there. */
  method SizeOptBlob(b: Option<seq<byte>>, tag: byte) returns (n: nat)
    ensures n == |OptBlobBytes(tag, b)|
  {
    hide Varint.Encode;
    if b.None? {
      return 0;
    }
    var s := Varint.SizeOf(|b.value|);
    n := 1 + |b.value| + s;
  }

  method SizeOptNumber(v: Option<nat>, tag: byte) returns (n: nat)
    ensures n == |OptNumberBytes(tag, v)|
  {
    hide Varint.Encode;
    if v.None? {
      return 0;
    }
    var s := Varint.SizeOf(v.value);
    n := 1 + s;
  }

  method SizeAttribute(m: Attribute) returns (n: nat)
    requires AttributeOk(m)
    ensures n == |AttributeBytes(m)|
  {
    AttributeLayout(m);
    AttributeHeadIs(m);
    AttributeOkParts(m);
    hide *;
    var s := Varint.SizeOf(m.key);
    n := 1 + s;
    NumberLength(0x08, m.key);
    s := SizeOptBlob(m.skey, 0x12);
    n := n + s;
    s := SizeOptNumber(IvalNumber(m), 0x18);
    n := n + s;
    s := SizeOptBlob(m.sval, 0x22);
    n := n + s;
    s := SizeOptBlob(m.bval, 0x2a);
    n := n + s;
    if m.tval.Some? {
      var l := SizeInterval(m.tval.value);
      s := Varint.SizeOf(l);
      n := n + 1 + l + s;
    }
    TvalLength(m);
    if m.boolval.Some? {
      n := n + 2;
    }
    BoolLength(m);
    if m.fval.Some? {
      n := n + 9;
    }
    FixedLength(m.fval, 0x41);
    n := n + |m.unknown|;
  }

  lemma AttributeOkParts(m: Attribute)
    requires AttributeOk(m)
    ensures m.tval.Some? ==> IntervalOk(m.tval.value)
  {
  }

  lemma NumberLength(tag: byte, v: nat)
    ensures |NumberBytes(tag, v)| == 1 + |Varint.Encode(v)|
  {
  }

  lemma TvalLength(m: Attribute)
    requires AttributeOk(m)
    ensures m.tval.Some? ==> var l := |IntervalBytes(m.tval.value)|;
            |OptBlobBytes(0x32, TvalBytes(m))| == 1 + l + |Varint.Encode(l)|
    ensures m.tval.None? ==> |OptBlobBytes(0x32, TvalBytes(m))| == 0
  {
  }

  lemma BoolLength(m: Attribute)
    ensures |OptNumberBytes(0x38, BoolNumber(m))| == if m.boolval.Some? then 2 else 0
  {
  }

  lemma FixedLength(v: Option<nat>, tag: byte)
    ensures |OptFixedBytes(tag, v)| == if v.Some? then 9 else 0
  {
  }

  method SizeTag(m: Tag) returns (n: nat)
    requires TagOk(m)
    ensures n == |TagBytes(m)|
  {
    TagLayout(m);
    hide TagBytes, Varint.Encode;
    var l := |m.name|;
    var s := Varint.SizeOf(l);
    n := 1 + l + s;
    s := SizeOptBlob(m.value, 0x12);
    n := n + s;
    n := n + |m.unknown|;
  }

  method SizeHeader(m: StreamHeader) returns (n: nat)
    requires HeaderOk(m)
    ensures n == |HeaderBytes(m)|
  {
    HeaderLayout(m);
    hide HeaderBytes, Varint.Encode;
    n := SizeOptNumber(ExtendOpt(m.compression), 0x08);
    var s := SizeOptNumber(ExtendOpt(m.mode), 0x10);
    n := n + s;
    n := n + |m.unknown|;
  }

  lemma {:induction false} AttributesSnoc(s: seq<Attribute>, k: nat)
    requires k < |s| && forall a | a in s :: AttributeOk(a)
    ensures AttributesBytes(s[..k + 1]) == AttributesBytes(s[..k]) + BlobBytes(0x1a, AttributeBytes(s[k]))
    ensures |AttributesBytes(s[..k + 1])| <= |AttributesBytes(s)|
    decreases |s|
  {
    hide AttributeBytes, AttributeOk, BlobBytes;
    assert s[..k + 1][1..] == s[1..][..k];
    if k == 0 {
      assert s[..k + 1][0] == s[0];
    } else {
      AttributesSnoc(s[1..], k - 1);
      assert s[..k][1..] == s[1..][..k - 1];
    }
  }

  lemma {:induction false} TagsSnoc(s: seq<Tag>, k: nat)
    requires k < |s| && forall t | t in s :: TagOk(t)
    ensures TagsBytes(s[..k + 1]) == TagsBytes(s[..k]) + BlobBytes(0x2a, TagBytes(s[k]))
    ensures |TagsBytes(s[..k + 1])| <= |TagsBytes(s)|
    decreases |s|
  {
    hide TagBytes, TagOk, BlobBytes;
    assert s[..k + 1][1..] == s[1..][..k];
    if k == 0 {
      assert s[..k + 1][0] == s[0];
    } else {
      TagsSnoc(s[1..], k - 1);
      assert s[..k][1..] == s[1..][..k - 1];
    }
  }

  lemma BlobLength(tag: byte, b: seq<byte>)
    ensures |BlobBytes(tag, b)| == 1 + |Varint.Encode(|b|)| + |b|
  {
  }

  method SizeAttributes(s: seq<Attribute>) returns (n: nat)
    requires forall a | a in s :: AttributeOk(a)
    ensures n == |AttributesBytes(s)|
  {
    hide AttributeBytes, AttributeOk, BlobBytes, Varint.Encode;
    n := 0;
    for k := 0 to |s|
      invariant n == |AttributesBytes(s[..k])|
    {
      var l := SizeAttribute(s[k]);
      var v := Varint.SizeOf(l);
      n := n + 1 + l + v;
      AttributesSnoc(s, k);
      BlobLength(0x1a, AttributeBytes(s[k]));
    }
    assert s[..|s|] == s;
  }

  method SizeTags(s: seq<Tag>) returns (n: nat)
    requires forall t | t in s :: TagOk(t)
    ensures n == |TagsBytes(s)|
  {
    hide TagBytes, TagOk, BlobBytes, Varint.Encode;
    n := 0;
    for k := 0 to |s|
      invariant n == |TagsBytes(s[..k])|
    {
      var l := SizeTag(s[k]);
      var v := Varint.SizeOf(l);
      n := n + 1 + l + v;
      TagsSnoc(s, k);
      BlobLength(0x2a, TagBytes(s[k]));
    }
    assert s[..|s|] == s;
  }

  lemma MessageOkParts(m: Message)
    requires MessageOk(m)
    ensures IsInt32(m.version) && (m.timestamp.Some? ==> IntervalOk(m.timestamp.value))
    ensures forall a | a in m.attributes :: AttributeOk(a) && |AttributeBytes(a)| < TWO_63
    ensures forall t | t in m.tags :: TagOk(t) && |TagBytes(t)| < TWO_63
    ensures MessageSize(m) == |OptBlobBytes(0x0a, TimestampBytes(m))| + |OptNumberBytes(0x10, m.typ)|
      + |AttributesBytes(m.attributes)| + |OptBlobBytes(0x22, m.session)| + |TagsBytes(m.tags)|
      + |NumberBytes(0x30, Extend(m.version))| + |m.unknown|
    ensures m.timestamp.Some? ==> TimestampBytes(m) == Some(IntervalBytes(m.timestamp.value))
    ensures m.timestamp.None? ==> TimestampBytes(m) == None
  {
  }

  /** `Message.Size`; for a message that can be marshalled it is the number of bytes written. */
  method SizeMessage(m: Message) returns (n: nat)
    requires MessageOk(m)
    ensures n == MessageSize(m)
    ensures m.timestamp.Some? && m.typ.Some? ==> n == |MessageBytes(m).value|
  {
    MessageOkParts(m);
    if m.timestamp.Some? && m.typ.Some? { MessageLayout(m); }
    hide MessageSize, MessageBytes, MessageOk, TimestampBytes, IntervalBytes, IntervalOk, AttributesBytes, TagsBytes,
         AttributeOk, TagOk, OptBlobBytes, OptNumberBytes, Extend, Varint.Encode;
    var s := Varint.SizeOf(Extend(m.version));
    n := 1 + s;
    if m.timestamp.Some? {
      var l := SizeInterval(m.timestamp.value);
      s := Varint.SizeOf(l);
      n := n + 1 + l + s;
      OptBlobLength(0x0a, IntervalBytes(m.timestamp.value));
    } else {
      OptBlobLength(0x0a, []);
    }
    s := SizeOptNumber(m.typ, 0x10);
    n := n + s;
    s := SizeAttributes(m.attributes);
    n := n + s;
    s := SizeOptBlob(m.session, 0x22);
    n := n + s;
    s := SizeTags(m.tags);
    n := n + s;
    n := n + |m.unknown|;
  }

  lemma OptBlobLength(tag: byte, b: seq<byte>)
    ensures |OptBlobBytes(tag, Some(b))| == 1 + |Varint.Encode(|b|)| + |b|
    ensures |OptBlobBytes(tag, None)| == 0
  {
  }
}
