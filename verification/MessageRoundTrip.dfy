/** `Unmarshal` undoes `MarshalTo`, for every message type. */
module MessageRoundTrip {

  import opened Wrappers
  import opened Bits
  import opened Wire
  import opened Messages
  import WF = WireFields

  /** `unknown` is what decoding could have left there: minimally tagged fields the type does not have. */
  ghost predicate Retained<M>(sc: Schema<M>, unknown: seq<byte>) {
    exists fs :: WF.FieldsBytes(fs) == unknown && forall f | f in fs :: WF.Foreign(sc, f)
  }

  /** The common step: fields are applied in order, the rest is kept, the required fields are there. */
  lemma Restores<M(!new)>(sc: Schema<M>, ks: seq<Known>, unknown: seq<byte>, zero: M, bare: M)
    requires WF.Lawful(sc) && Retained(sc, unknown)
    requires AllWritable(ks) && (forall k | k in ks :: sc.kind(k.num) == k.kind)
    requires ApplyAll(sc, ks, zero) == Ok(bare)
    requires forall num | num in sc.required :: num in Numbers(ks)
    requires |AllBytes(ks) + unknown| < TWO_63
    ensures Decode(sc, AllBytes(ks) + unknown, |AllBytes(ks) + unknown|, zero, {}) == Ok(sc.keep(bare, unknown))
  {
    var l := |AllBytes(ks) + unknown|;
    DecodeAll(sc, ks, unknown, l, zero, {});
    var fs :| WF.FieldsBytes(fs) == unknown && forall f | f in fs :: WF.Foreign(sc, f);
    WF.DecodeForeigners(sc, fs, l, bare, {} + Numbers(ks));
    WF.FinishKeeps(sc.required, sc.keep(bare, unknown), {} + Numbers(ks));
  }

  /** The laws hold of all five types, so unknown fields survive a decode and come out again unchanged. */
  lemma IntervalLawful()
    ensures WF.Lawful(IntervalSchema())
  {
  }

  lemma AttributeCommutes(m: Attribute, num: int, p: Payload, b: seq<byte>)
    ensures var sc := AttributeSchema();
            && sc.apply(sc.keep(m, b), num, p) == WF.Keeping(sc, sc.apply(m, num, p), b)
            && (sc.apply(m, num, p).Ok? ==> sc.unknown(sc.apply(m, num, p).value) == sc.unknown(m))
  {
    hide Decode, IntervalSchema, Unzigzag, Num, Or;
  }

  lemma AttributeLawful()
    ensures WF.Lawful(AttributeSchema())
  {
    var sc := AttributeSchema();
    forall m, num, p, b
      ensures sc.apply(sc.keep(m, b), num, p) == WF.Keeping(sc, sc.apply(m, num, p), b)
    {
      AttributeCommutes(m, num, p, b);
    }
    forall m, num, p
      ensures sc.apply(m, num, p).Ok? ==> sc.unknown(sc.apply(m, num, p).value) == sc.unknown(m)
    {
      AttributeCommutes(m, num, p, []);
    }
  }

  lemma TagLawful()
    ensures WF.Lawful(TagSchema())
  {
  }

  lemma MessageCommutes(m: Message, num: int, p: Payload, b: seq<byte>)
    ensures var sc := MessageSchema();
            && sc.apply(sc.keep(m, b), num, p) == WF.Keeping(sc, sc.apply(m, num, p), b)
            && (sc.apply(m, num, p).Ok? ==> sc.unknown(sc.apply(m, num, p).value) == sc.unknown(m))
  {
    hide Decode, IntervalSchema, AttributeSchema, TagSchema, OrInt32, Num;
  }

  lemma MessageLawful()
    ensures WF.Lawful(MessageSchema())
  {
    var sc := MessageSchema();
    forall m, num, p, b
      ensures sc.apply(sc.keep(m, b), num, p) == WF.Keeping(sc, sc.apply(m, num, p), b)
    {
      MessageCommutes(m, num, p, b);
    }
    forall m, num, p
      ensures sc.apply(m, num, p).Ok? ==> sc.unknown(sc.apply(m, num, p).value) == sc.unknown(m)
    {
      MessageCommutes(m, num, p, []);
    }
  }

  lemma HeaderLawful()
    ensures WF.Lawful(HeaderSchema())
  {
  }

  lemma Chain<M>(sc: Schema<M>, ks: seq<Known>, next: seq<Known>, m0: M, m1: M, m2: M)
    requires ApplyAll(sc, ks, m0) == Ok(m1) && ApplyAll(sc, next, m1) == Ok(m2)
    ensures ApplyAll(sc, ks + next, m0) == Ok(m2)
  {
    ApplyAllAppend(sc, ks, next, m0);
  }

  lemma One<M>(sc: Schema<M>, k: Known, m: M)
    ensures ApplyAll(sc, [k], m) == sc.apply(m, k.num, k.payload)
  {
    var r := sc.apply(m, k.num, k.payload);
    assert [k][1..] == [];
    if r.Ok? { assert ApplyAll(sc, [k][1..], r.value) == Ok(r.value); }
  }

  lemma Cons<M>(sc: Schema<M>, k: Known, ks: seq<Known>, m: M, m': M)
    requires sc.apply(m, k.num, k.payload) == Ok(m')
    ensures ApplyAll(sc, [k] + ks, m) == ApplyAll(sc, ks, m')
  {
    assert ([k] + ks)[1..] == ks;
  }

  // ---------------------------------------------------------------------------------------------
  // Interval and timestamp
  // ---------------------------------------------------------------------------------------------

  ghost predicate IntervalKept(m: Interval) {
    IntervalOk(m) && Retained(IntervalSchema(), m.unknown)
  }

  lemma IntervalRoundTrip(m: Interval)
    requires IntervalKept(m) && |IntervalBytes(m)| < TWO_63
    ensures Decode(IntervalSchema(), IntervalBytes(m), |IntervalBytes(m)|, ZERO_INTERVAL, {}) == Ok(m)
  {
    var sc, ks := IntervalSchema(), IntervalFields(m);
    ApplyInterval(m);
    IntervalLawful();
    assert ks[0] in ks && ks[1] in ks;
    hide ApplyAll;
    Restores(sc, ks, m.unknown, ZERO_INTERVAL, m.(unknown := []));
    assert [] + m.unknown == m.unknown;
  }

  lemma ApplyInterval(m: Interval)
    requires IntervalOk(m)
    ensures ApplyAll(IntervalSchema(), IntervalFields(m), ZERO_INTERVAL) == Ok(m.(unknown := []))
  {
    var sc, ks := IntervalSchema(), IntervalFields(m);
    One(sc, ks[0], ZERO_INTERVAL);
    One(sc, ks[1], ZERO_INTERVAL.(seconds := m.seconds));
    hide ApplyAll;
    assert ks == [ks[0]] + [ks[1]];
    Chain(sc, [ks[0]], [ks[1]], ZERO_INTERVAL, ZERO_INTERVAL.(seconds := m.seconds), m.(unknown := []));
  }

  // ---------------------------------------------------------------------------------------------
  // Attribute
  // ---------------------------------------------------------------------------------------------

  ghost predicate AttributeKept(m: Attribute) {
    && AttributeOk(m) && Retained(AttributeSchema(), m.unknown)
    && (m.tval.Some? ==> IntervalKept(m.tval.value))
  }

  lemma ApplyKey(m: Attribute)
    requires AttributeOk(m)
    ensures ApplyAll(AttributeSchema(), [Known(1, VARINT, Number(m.key))], ZERO_ATTRIBUTE)
         == Ok(ZERO_ATTRIBUTE.(key := m.key))
  {
    One(AttributeSchema(), Known(1, VARINT, Number(m.key)), ZERO_ATTRIBUTE);
  }

  lemma ApplyStrings(m: Attribute, b: Option<seq<byte>>)
    ensures m.skey.None? ==> ApplyAll(AttributeSchema(), OptBlob(2, b), m) == Ok(m.(skey := b))
    ensures m.sval.None? ==> ApplyAll(AttributeSchema(), OptBlob(4, b), m) == Ok(m.(sval := b))
    ensures m.bval.None? ==> ApplyAll(AttributeSchema(), OptBlob(5, b), m) == Ok(m.(bval := b))
  {
    if b.Some? {
      One(AttributeSchema(), Known(2, BLOB, Bytes(b.value)), m);
      One(AttributeSchema(), Known(4, BLOB, Bytes(b.value)), m);
      One(AttributeSchema(), Known(5, BLOB, Bytes(b.value)), m);
    }
  }

  lemma ApplyNumbers(m: Attribute, x: Option<int>, b: Option<bool>, f: Option<nat>)
    requires (x.Some? ==> IsInt64(x.value)) && (f.Some? ==> f.value < TWO_64)
    ensures m.ival.None? ==>
      ApplyAll(AttributeSchema(), OptNum(3, VARINT, if x.Some? then Some(Zigzag(x.value)) else None), m)
      == Ok(m.(ival := x))
    ensures m.boolval.None? ==>
      ApplyAll(AttributeSchema(), OptNum(7, VARINT, if b.Some? then Some(if b.value then 1 else 0) else None), m)
      == Ok(m.(boolval := b))
    ensures m.fval.None? ==> ApplyAll(AttributeSchema(), OptNum(8, FIXED64, f), m) == Ok(m.(fval := f))
  {
    if x.Some? {
      One(AttributeSchema(), Known(3, VARINT, Number(Zigzag(x.value))), m);
      ZigzagRoundTrip(x.value);
    }
    if b.Some? { One(AttributeSchema(), Known(7, VARINT, Number(if b.value then 1 else 0)), m); }
    if f.Some? { One(AttributeSchema(), Known(8, FIXED64, Number(f.value)), m); }
  }

  lemma ApplyTval(m: Attribute, t: Option<Interval>)
    requires m.tval.None? && (t.Some? ==> IntervalKept(t.value) && |IntervalBytes(t.value)| < TWO_63)
    ensures ApplyAll(AttributeSchema(), OptBlob(6, if t.Some? then Some(IntervalBytes(t.value)) else None), m)
         == Ok(m.(tval := t))
  {
    if t.Some? {
      One(AttributeSchema(), Known(6, BLOB, Bytes(IntervalBytes(t.value))), m);
      IntervalRoundTrip(t.value);
    }
  }

  lemma AttributeOkIs(m: Attribute)
    requires AttributeKept(m)
    ensures AttributeOk(m) && (m.tval.Some? ==> IntervalOk(m.tval.value) && IntervalKept(m.tval.value))
    ensures m.tval.Some? ==> |IntervalBytes(m.tval.value)| < TWO_63
    ensures ZERO_ATTRIBUTE == Attribute(0, None, None, None, None, None, None, None, [])
    ensures (m.ival.Some? ==> IsInt64(m.ival.value)) && (m.fval.Some? ==> m.fval.value < TWO_64)
  {
  }

  lemma FieldsOfAttribute(m: Attribute)
    requires AttributeOk(m)
    ensures AttributeFields(m) == [Known(1, VARINT, Number(m.key))] + OptBlob(2, m.skey)
      + OptNum(3, VARINT, if m.ival.Some? then Some(Zigzag(m.ival.value)) else None)
      + OptBlob(4, m.sval) + OptBlob(5, m.bval)
      + OptBlob(6, if m.tval.Some? then Some(IntervalBytes(m.tval.value)) else None)
      + OptNum(7, VARINT, if m.boolval.Some? then Some(if m.boolval.value then 1 else 0) else None)
      + OptNum(8, FIXED64, m.fval)
  {
  }

  /** The fields up to the string value. */
  lemma ApplyFirst(m: Attribute, ks: seq<Known>, mid: Attribute)
    requires AttributeKept(m) && (m.ival.Some? ==> IsInt64(m.ival.value))
    requires ks == [Known(1, VARINT, Number(m.key))] + OptBlob(2, m.skey)
      + OptNum(3, VARINT, if m.ival.Some? then Some(Zigzag(m.ival.value)) else None) + OptBlob(4, m.sval)
    requires mid == Attribute(m.key, m.skey, m.ival, m.sval, None, None, None, None, [])
    ensures ApplyAll(AttributeSchema(), ks, ZERO_ATTRIBUTE) == Ok(mid)
  {
    AttributeOkIs(m);
    hide *;
    var sc := AttributeSchema();
    var m1 := Attribute(m.key, None, None, None, None, None, None, None, []);
    var m2 := m1.(skey := m.skey);
    var m3 := m2.(ival := m.ival);
    var k1 := [Known(1, VARINT, Number(m.key))];
    var n3 := OptNum(3, VARINT, if m.ival.Some? then Some(Zigzag(m.ival.value)) else None);
    ApplyKey(m);
    ApplyStrings(m1, m.skey);
    ApplyNumbers(m2, m.ival, m.boolval, m.fval);
    ApplyStrings(m3, m.sval);
    Chain(sc, k1, OptBlob(2, m.skey), ZERO_ATTRIBUTE, m1, m2);
    Chain(sc, k1 + OptBlob(2, m.skey), n3, ZERO_ATTRIBUTE, m2, m3);
    Chain(sc, k1 + OptBlob(2, m.skey) + n3, OptBlob(4, m.sval), ZERO_ATTRIBUTE, m3, mid);
  }

  /** And the rest. */
  lemma ApplySecond(m: Attribute, ks: seq<Known>, mid: Attribute)
    requires AttributeKept(m) && (m.tval.Some? ==> IntervalOk(m.tval.value))
    requires mid == Attribute(m.key, m.skey, m.ival, m.sval, None, None, None, None, [])
    requires ApplyAll(AttributeSchema(), ks, ZERO_ATTRIBUTE) == Ok(mid)
    ensures ApplyAll(AttributeSchema(),
      ks + OptBlob(5, m.bval)
      + OptBlob(6, if m.tval.Some? then Some(IntervalBytes(m.tval.value)) else None)
      + OptNum(7, VARINT, if m.boolval.Some? then Some(if m.boolval.value then 1 else 0) else None)
      + OptNum(8, FIXED64, m.fval), ZERO_ATTRIBUTE) == Ok(m.(unknown := []))
  {
    AttributeOkIs(m);
    hide *;
    var sc := AttributeSchema();
    var m5 := mid.(bval := m.bval);
    var m6 := m5.(tval := m.tval);
    var m7 := m6.(boolval := m.boolval);
    var n6 := OptBlob(6, if m.tval.Some? then Some(IntervalBytes(m.tval.value)) else None);
    var n7 := OptNum(7, VARINT, if m.boolval.Some? then Some(if m.boolval.value then 1 else 0) else None);
    ApplyStrings(mid, m.bval);
    ApplyTval(m5, m.tval);
    ApplyNumbers(m6, m.ival, m.boolval, m.fval);
    ApplyNumbers(m7, m.ival, m.boolval, m.fval);
    Chain(sc, ks, OptBlob(5, m.bval), ZERO_ATTRIBUTE, mid, m5);
    Chain(sc, ks + OptBlob(5, m.bval), n6, ZERO_ATTRIBUTE, m5, m6);
    Chain(sc, ks + OptBlob(5, m.bval) + n6, n7, ZERO_ATTRIBUTE, m6, m7);
    Chain(sc, ks + OptBlob(5, m.bval) + n6 + n7, OptNum(8, FIXED64, m.fval), ZERO_ATTRIBUTE, m7, m.(unknown := []));
  }

  lemma ApplyAttribute(m: Attribute)
    requires AttributeKept(m)
    ensures ApplyAll(AttributeSchema(), AttributeFields(m), ZERO_ATTRIBUTE) == Ok(m.(unknown := []))
  {
    AttributeOkIs(m);
    FieldsOfAttribute(m);
    hide *;
    var mid := Attribute(m.key, m.skey, m.ival, m.sval, None, None, None, None, []);
    var ks := [Known(1, VARINT, Number(m.key))] + OptBlob(2, m.skey)
      + OptNum(3, VARINT, if m.ival.Some? then Some(Zigzag(m.ival.value)) else None) + OptBlob(4, m.sval);
    ApplyFirst(m, ks, mid);
    ApplySecond(m, ks, mid);
  }

  lemma AttributeKinds(m: Attribute)
    requires AttributeOk(m)
    ensures forall k | k in AttributeFields(m) :: AttributeSchema().kind(k.num) == k.kind
  {
  }

  lemma AttributeShape(m: Attribute)
    requires AttributeOk(m)
    ensures AllWritable(AttributeFields(m)) && AttributeBytes(m) == AllBytes(AttributeFields(m)) + m.unknown
    ensures AttributeSchema().required == [1] && 1 in Numbers(AttributeFields(m))
    ensures AttributeSchema().keep(m.(unknown := []), m.unknown) == m
  {
    AttributeWritable(m);
    assert AttributeFields(m)[0] in AttributeFields(m);
    assert [] + m.unknown == m.unknown;
  }

  lemma AttributeRoundTrip(m: Attribute)
    requires AttributeKept(m) && |AttributeBytes(m)| < TWO_63
    ensures Decode(AttributeSchema(), AttributeBytes(m), |AttributeBytes(m)|, ZERO_ATTRIBUTE, {}) == Ok(m)
  {
    AttributeShape(m);
    AttributeKinds(m);
    ApplyAttribute(m);
    AttributeLawful();
    hide AttributeSchema, AttributeFields, AttributeBytes, Decode, ApplyAll, AllBytes, Retained, WF.Lawful;
    Restores(AttributeSchema(), AttributeFields(m), m.unknown, ZERO_ATTRIBUTE, m.(unknown := []));
  }

  // ---------------------------------------------------------------------------------------------
  // Tag
  // ---------------------------------------------------------------------------------------------

  ghost predicate TagKept(m: Tag) {
    TagOk(m) && Retained(TagSchema(), m.unknown)
  }

  lemma TagRoundTrip(m: Tag)
    requires TagKept(m) && |TagBytes(m)| < TWO_63
    ensures Decode(TagSchema(), TagBytes(m), |TagBytes(m)|, ZERO_TAG, {}) == Ok(m)
  {
    var sc, k := TagSchema(), Known(1, BLOB, Bytes(m.name));
    var m1 := ZERO_TAG.(name := m.name);
    One(sc, k, ZERO_TAG);
    if m.value.Some? { One(sc, Known(2, BLOB, Bytes(m.value.value)), m1); }
    Chain(sc, [k], OptBlob(2, m.value), ZERO_TAG, m1, m.(unknown := []));
    TagLawful();
    assert TagFields(m)[0] in TagFields(m);
    assert 1 in Numbers(TagFields(m));
    Restores(sc, TagFields(m), m.unknown, ZERO_TAG, m.(unknown := []));
    assert [] + m.unknown == m.unknown;
  }

  // ---------------------------------------------------------------------------------------------
  // Message
  // ---------------------------------------------------------------------------------------------

  ghost predicate MessageKept(m: Message) {
    && MessageOk(m) && m.timestamp.Some? && m.typ.Some?
    && Retained(MessageSchema(), m.unknown)
    && IntervalKept(m.timestamp.value)
    && (forall a | a in m.attributes :: AttributeOk(a) && AttributeKept(a))
    && (forall t | t in m.tags :: TagOk(t) && TagKept(t))
  }

  lemma AppliesTimestamp(m: Message, t: Interval)
    requires IntervalKept(t) && |IntervalBytes(t)| < TWO_63 && m.timestamp.None?
    ensures MessageSchema().apply(m, 1, Bytes(IntervalBytes(t))) == Ok(m.(timestamp := Some(t)))
  {
    IntervalRoundTrip(t);
    hide Decode, IntervalBytes, IntervalSchema;
  }

  lemma AppliesAttribute(m: Message, a: Attribute)
    requires AttributeOk(a) && AttributeKept(a) && |AttributeBytes(a)| < TWO_63
    ensures MessageSchema().apply(m, 3, Bytes(AttributeBytes(a))) == Ok(m.(attributes := m.attributes + [a]))
  {
    AttributeRoundTrip(a);
    hide Decode, AttributeBytes, AttributeSchema;
  }

  lemma AppliesTag(m: Message, t: Tag)
    requires TagOk(t) && TagKept(t) && |TagBytes(t)| < TWO_63
    ensures MessageSchema().apply(m, 5, Bytes(TagBytes(t))) == Ok(m.(tags := m.tags + [t]))
  {
    TagRoundTrip(t);
    hide Decode, TagBytes, TagSchema;
  }

  lemma AppliesRest(m: Message, typ: nat, session: seq<byte>, version: int)
    requires typ < TWO_32 && IsInt32(version)
    ensures MessageSchema().apply(m, 2, Number(typ)) == Ok(m.(typ := Some(typ)))
    ensures MessageSchema().apply(m, 4, Bytes(session)) == Ok(m.(session := Some(session)))
    ensures MessageSchema().apply(m, 6, Number(Extend(version)))
         == Ok(m.(version := OrInt32(m.version, Extend(version))))
  {
    hide Decode, OrInt32;
  }

  lemma {:induction false} ApplyAttributes(s: seq<Attribute>, m: Message)
    requires forall a | a in s :: AttributeOk(a) && AttributeKept(a) && |AttributeBytes(a)| < TWO_63
    ensures ApplyAll(MessageSchema(), AttributeList(s), m) == Ok(m.(attributes := m.attributes + s))
    decreases |s|
  {
    hide MessageSchema, AttributeBytes, AttributeOk, AttributeKept;
    if s == [] {
      assert m.attributes + s == m.attributes;
    } else {
      var m' := m.(attributes := m.attributes + [s[0]]);
      AppliesAttribute(m, s[0]);
      ApplyAttributes(s[1..], m');
      Cons(MessageSchema(), Known(3, BLOB, Bytes(AttributeBytes(s[0]))), AttributeList(s[1..]), m, m');
      assert m'.attributes + s[1..] == m.attributes + s;
    }
  }

  lemma {:induction false} ApplyTags(s: seq<Tag>, m: Message)
    requires forall t | t in s :: TagOk(t) && TagKept(t) && |TagBytes(t)| < TWO_63
    ensures ApplyAll(MessageSchema(), TagList(s), m) == Ok(m.(tags := m.tags + s))
    decreases |s|
  {
    hide MessageSchema, TagBytes, TagOk, TagKept;
    if s == [] {
      assert m.tags + s == m.tags;
    } else {
      var m' := m.(tags := m.tags + [s[0]]);
      AppliesTag(m, s[0]);
      ApplyTags(s[1..], m');
      Cons(MessageSchema(), Known(5, BLOB, Bytes(TagBytes(s[0]))), TagList(s[1..]), m, m');
      assert m'.tags + s[1..] == m.tags + s;
    }
  }

  lemma ApplyStart(t: Interval, typ: nat, m0: Message)
    requires IntervalKept(t) && |IntervalBytes(t)| < TWO_63 && typ < TWO_32 && m0.timestamp.None?
    ensures ApplyAll(MessageSchema(), [Known(1, BLOB, Bytes(IntervalBytes(t))), Known(2, VARINT, Number(typ))], m0)
         == Ok(m0.(timestamp := Some(t), typ := Some(typ)))
  {
    var k1, k2 := Known(1, BLOB, Bytes(IntervalBytes(t))), Known(2, VARINT, Number(typ));
    var m1 := m0.(timestamp := Some(t));
    AppliesTimestamp(m0, t);
    AppliesRest(m1, typ, [], 0);
    hide MessageSchema, IntervalBytes;
    One(MessageSchema(), k2, m1);
    Cons(MessageSchema(), k1, [k2], m0, m1);
    assert [k1, k2] == [k1] + [k2];
  }

  lemma ApplySession(m: Message, session: Option<seq<byte>>)
    requires m.session.None?
    ensures ApplyAll(MessageSchema(), OptBlob(4, session), m) == Ok(m.(session := session))
  {
    if session.Some? {
      AppliesRest(m, 0, session.value, 0);
      hide MessageSchema;
      One(MessageSchema(), Known(4, BLOB, Bytes(session.value)), m);
    }
  }

  /** Decoding starts from a message whose version is `v`, as `decodeNative` does with version 1; the
      decoded version is or-ed into it. */
  lemma ApplyMessage(m: Message, v: int)
    requires MessageKept(m)
    ensures ApplyAll(MessageSchema(), MessageFields(m), ZERO_MESSAGE.(version := v))
         == Ok(m.(unknown := [], version := OrInt32(v, Extend(m.version))))
  {
    hide MessageSchema, ApplyAll, OptBlob, AttributeList, TagList, IntervalBytes, OrInt32, Extend,
         AttributeOk, AttributeKept, AttributeBytes, TagOk, TagKept, TagBytes, IntervalKept, Retained;
    var sc, m0 := MessageSchema(), ZERO_MESSAGE.(version := v);
    var m1 := m0.(timestamp := m.timestamp, typ := m.typ);
    var m2 := m1.(attributes := m.attributes);
    var m3 := m2.(session := m.session);
    var m4 := m3.(tags := m.tags);
    var k1 := [Known(1, BLOB, Bytes(IntervalBytes(m.timestamp.value))), Known(2, VARINT, Number(m.typ.value))];
    var k2 := k1 + AttributeList(m.attributes);
    var k3 := k2 + OptBlob(4, m.session);
    var k4 := k3 + TagList(m.tags);
    var k := Known(6, VARINT, Number(Extend(m.version)));
    ApplyStart(m.timestamp.value, m.typ.value, m0);
    ApplyAttributes(m.attributes, m1);
    assert [] + m.attributes == m.attributes && [] + m.tags == m.tags;
    ApplySession(m2, m.session);
    ApplyTags(m.tags, m3);
    AppliesRest(m4, 0, [], m.version);
    One(sc, k, m4);
    Chain(sc, k1, AttributeList(m.attributes), m0, m1, m2);
    Chain(sc, k2, OptBlob(4, m.session), m0, m2, m3);
    Chain(sc, k3, TagList(m.tags), m0, m3, m4);
    Chain(sc, k4, [k], m0, m4, m4.(version := OrInt32(v, Extend(m.version))));
  }

  lemma MessageShape(m: Message, version: int)
    requires MessageOk(m) && m.timestamp.Some? && m.typ.Some?
    ensures AllWritable(MessageFields(m)) && MessageBytes(m) == Ok(AllBytes(MessageFields(m)) + m.unknown)
    ensures forall k | k in MessageFields(m) :: MessageSchema().kind(k.num) == k.kind
    ensures MessageSchema().required == [1, 2] && 1 in Numbers(MessageFields(m)) && 2 in Numbers(MessageFields(m))
    ensures MessageSchema().keep(m.(unknown := [], version := version), m.unknown) == m.(version := version)
  {
    MessageWritable(m);
    assert MessageFields(m)[0] in MessageFields(m) && MessageFields(m)[1] in MessageFields(m);
    assert [] + m.unknown == m.unknown;
  }

  lemma MessageDecodes(m: Message, v: int)
    requires MessageKept(m) && |MessageBytes(m).value| < TWO_63
    ensures MessageBytes(m).Ok?
    ensures var b := MessageBytes(m).value;
            Decode(MessageSchema(), b, |b|, ZERO_MESSAGE.(version := v), {})
            == Ok(m.(version := OrInt32(v, Extend(m.version))))
  {
    var version := OrInt32(v, Extend(m.version));
    MessageShape(m, version);
    ApplyMessage(m, v);
    MessageLawful();
    hide MessageSchema, MessageFields, MessageBytes, Decode, ApplyAll, AllBytes, Retained, WF.Lawful, OrInt32, Extend;
    var bare := m.(unknown := [], version := version);
    Restores(MessageSchema(), MessageFields(m), m.unknown, ZERO_MESSAGE.(version := v), bare);
  }

  /** `Unmarshal` into a zero message of what `MarshalTo` wrote is the same message. */
  lemma MessageRoundTrip(m: Message)
    requires MessageKept(m) && |MessageBytes(m).value| < TWO_63
    ensures var b := MessageBytes(m).value;
            Decode(MessageSchema(), b, |b|, ZERO_MESSAGE, {}) == Ok(m)
  {
    MessageDecodes(m, 0);
    Int32RoundTrip(m.version);
  }

  lemma OrOneInt32(x: int)
    requires IsInt32(x)
    ensures OrInt32(1, Extend(x)) == (if x % 2 == 1 then x else x + 1)
  {
    assert Extend(x) % TWO_32 == ToUnsigned(x, TWO_32);
    OrOne(ToUnsigned(x, TWO_32));
  }

  lemma VersionIsInt32(m: Message)
    requires MessageKept(m)
    ensures IsInt32(m.version) && MessageBytes(m).Ok?
  {
  }

  /** Into a message of version 1, as every stream decoder does: exactly the odd versions come back. */
  lemma VersionOneDecode(m: Message)
    requires MessageKept(m) && |MessageBytes(m).value| < TWO_63
    ensures MessageBytes(m).Ok?
    ensures var b := MessageBytes(m).value;
            var r := Decode(MessageSchema(), b, |b|, ZERO_MESSAGE.(version := 1), {});
            && r == Ok(m.(version := if m.version % 2 == 1 then m.version else m.version + 1))
            && (r == Ok(m) <==> m.version % 2 == 1)
  {
    VersionIsInt32(m);
    hide *;
    MessageDecodes(m, 1);
    OrOneInt32(m.version);
  }

  // ---------------------------------------------------------------------------------------------
  // Stream header
  // ---------------------------------------------------------------------------------------------

  ghost predicate HeaderKept(m: StreamHeader) {
    HeaderOk(m) && Retained(HeaderSchema(), m.unknown)
  }

  lemma ApplyHeader(m: StreamHeader)
    requires HeaderOk(m)
    ensures ApplyAll(HeaderSchema(), HeaderFields(m), ZERO_HEADER) == Ok(m.(unknown := []))
  {
    var sc, m1 := HeaderSchema(), ZERO_HEADER.(compression := m.compression);
    var c := if m.compression.Some? then Some(Extend(m.compression.value)) else None;
    var d := if m.mode.Some? then Some(Extend(m.mode.value)) else None;
    assert ApplyAll(sc, OptNum(1, VARINT, c), ZERO_HEADER) == Ok(m1) by {
      if m.compression.Some? {
        Int32RoundTrip(m.compression.value);
        One(sc, Known(1, VARINT, Number(c.value)), ZERO_HEADER);
      }
    }
    assert ApplyAll(sc, OptNum(2, VARINT, d), m1) == Ok(m.(unknown := [])) by {
      if m.mode.Some? {
        Int32RoundTrip(m.mode.value);
        One(sc, Known(2, VARINT, Number(d.value)), m1);
      }
    }
    hide ApplyAll, OptNum, Extend, HeaderSchema;
    Chain(sc, OptNum(1, VARINT, c), OptNum(2, VARINT, d), ZERO_HEADER, m1, m.(unknown := []));
  }

  lemma HeaderShape(m: StreamHeader)
    requires HeaderOk(m)
    ensures AllWritable(HeaderFields(m)) && HeaderBytes(m) == AllBytes(HeaderFields(m)) + m.unknown
    ensures forall k | k in HeaderFields(m) :: HeaderSchema().kind(k.num) == k.kind
    ensures HeaderSchema().required == [] && HeaderSchema().keep(m.(unknown := []), m.unknown) == m
  {
    assert [] + m.unknown == m.unknown;
  }

  lemma HeaderRoundTrip(m: StreamHeader)
    requires HeaderKept(m) && |HeaderBytes(m)| < TWO_63
    ensures Decode(HeaderSchema(), HeaderBytes(m), |HeaderBytes(m)|, ZERO_HEADER, {}) == Ok(m)
  {
    HeaderShape(m);
    ApplyHeader(m);
    HeaderLawful();
    hide HeaderSchema, HeaderFields, HeaderBytes, Decode, ApplyAll, AllBytes, Retained, WF.Lawful;
    Restores(HeaderSchema(), HeaderFields(m), m.unknown, ZERO_HEADER, m.(unknown := []));
  }
}
