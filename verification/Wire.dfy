/** The field level of the Protocol Buffers encoding as the generated code reads it: tags, payloads, skipping
    of unknown fields, and the loop that every `Unmarshal` runs, parameterised by a schema. */
module Wire {

  import opened Bits
  import Varint
  import Seqs

  /** Why decoding does not succeed.  `Truncated` is `io.ErrUnexpectedEOF`.  The last two are no errors that
      the source returns: `Stuck` is a call that never returns, because it loops or recurses forever, and
      `Crash` is a panic, of a slice or an index with bounds that make no sense. */
  datatype Error =
    | Truncated
    | WrongWireType(field: int)
    | IllegalWireType
    | RequiredNotSet(field: int)
    | Stuck
    | Crash

  datatype Result<+T> = Ok(value: T) | Fail(error: Error)

  const VARINT := 0
  const FIXED64 := 1
  const BLOB := 2
  const GROUP := 3
  const END_GROUP := 4
  const FIXED32 := 5
  const UNKNOWN := -1

  /** The 64-bit value of the varint that `s` starts with. */
  function Head(s: seq<byte>): (v: nat)
    ensures v < TWO_64
  {
    Varint.ModPow2(Varint.Value(s[..Varint.Length(s)]), 64);
    Pow2Values();
    Varint.Low(s[..Varint.Length(s)], 64)
  }

  /** The value that an `int` has when its exact value would be `v`. */
  function AsInt(v: int): (x: int)
    ensures -TWO_63 <= x < TWO_63
    ensures -TWO_63 <= v < TWO_63 ==> x == v
  {
    ToSigned(v % TWO_64, TWO_64)
  }

  /** `int32(wire >> 3)`. */
  function FieldNum(wire: nat): int {
    ToSigned((wire / 8) % TWO_32, TWO_32)
  }

  // ---------------------------------------------------------------------------------------------
  // skipLog
  // ---------------------------------------------------------------------------------------------

  /** The cases of `skipLog` without recursion, for a field of wire type `kind` whose tag takes `n` bytes.
      The length of a blob is an `int`: one of 2^63 or more is negative, and nothing checks that. */
  function SkipFlat(kind: int, s: seq<byte>, n: nat): (r: Result<int>)
    requires n <= |s|
  {
    var k := Varint.Length(s[n..]);
    if kind == VARINT then
      if k == 0 then Fail(Truncated) else Ok(n + k)
    else if kind == FIXED64 then Ok(n + 8)
    else if kind == BLOB then
      if k == 0 then Fail(Truncated) else Ok(AsInt(n + k + Head(s[n..])))
    else if kind == END_GROUP then Ok(n)
    else if kind == FIXED32 then Ok(n + 4)
    else Fail(IllegalWireType)
  }

  /** `skipLog(data)`: the length of the field that `s` starts with, which may reach beyond `s`, and may be
      zero or negative. */
  function SkipLog(s: seq<byte>): (r: Result<int>)
    requires s != []
    decreases |s|, 1, Positions(|s|)
  {
    var n := Varint.Length(s);
    if n == 0 then Fail(Truncated)
    else if Head(s) % 8 == GROUP then SkipGroup(s, n, {})
    else SkipFlat(Head(s) % 8, s, n)
  }

  /** The numbers below `n`. */
  function Positions(n: nat): set<int> {
    if n == 0 then {} else Positions(n - 1) + {n - 1}
  }

  lemma {:induction false} IsPosition(n: nat, i: nat)
    requires i < n
    ensures i in Positions(n)
    decreases n
  {
    if i < n - 1 { IsPosition(n - 1, i); }
  }

  /** The inner loop of `skipLog` from position `i` of `s`: fields up to the end-group tag.  Each field moves the
      position by what the recursive call returns, backwards too.  What a round does depends on nothing but
      the position, so when one that was `visited` comes again the loop never ends; and a field that starts
      at position 0 is the group itself, which recurses forever. */
  function SkipGroup(s: seq<byte>, i: int, visited: set<int>): (r: Result<int>)
    decreases |s|, 0, Positions(|s|) - visited
  {
    if i >= |s| then Fail(Truncated)
    else if i < 0 then Fail(Crash)
    else
      var n := Varint.Length(s[i..]);
      if n == 0 then Fail(Truncated)
      else if Head(s[i..]) % 8 == END_GROUP then Ok(i + n)
      else if i == 0 || i in visited then Fail(Stuck)
      else
        var r := SkipLog(s[i..]);
        if r.Fail? then r
        else
          IsPosition(|s|, i);
          SkipGroup(s, AsInt(i + r.value), visited + {i})
  }

  // ---------------------------------------------------------------------------------------------
  // The decoding loop
  // ---------------------------------------------------------------------------------------------

  datatype Payload = Number(v: nat) | Bytes(b: seq<byte>)

  function LittleEndian(s: seq<byte>): nat {
    if s == [] then 0 else s[0] as nat + 256 * LittleEndian(s[1..])
  }

  /** The payload of a known field of wire type `kind`, and how many bytes it takes.  `s` is the rest of an
      input of `l` bytes; a length that takes the position beyond the range of an `int` makes it negative,
      which the test against `l` lets pass, and the slice panics. */
  function ReadPayload(kind: int, s: seq<byte>, l: int): (r: Result<(Payload, nat)>)
    ensures r.Ok? ==> r.value.1 <= |s|
  {
    var k := Varint.Length(s);
    if kind == FIXED64 then
      if |s| < 8 then Fail(Truncated) else Ok((Number(LittleEndian(s[..8])), 8))
    else if k == 0 then Fail(Truncated)
    else if kind == VARINT then Ok((Number(Head(s)), k))
    else if l - |s| + k + Head(s) >= TWO_63 then Fail(Crash)
    else if k + Head(s) > |s| then Fail(Truncated)
    else Ok((Bytes(s[k..k + Head(s)]), k + Head(s)))
  }

  /** One message type: the wire type of each field (`UNKNOWN` for numbers it does not have), what a field
      does to the message, where unknown bytes are kept, and the required fields in checking order. */
  datatype Schema<!M> = Schema(
    kind: int -> int,
    apply: (M, int, Payload) -> Result<M>,
    keep: (M, seq<byte>) -> M,
    unknown: M -> seq<byte>,
    required: seq<int>)

  function Finish<M>(required: seq<int>, m: M, seen: set<int>): Result<M> {
    if required == [] then Ok(m)
    else if required[0] !in seen then Fail(RequiredNotSet(required[0]))
    else Finish(required[1..], m, seen)
  }

  /** Where `index -= sizeOfWire` leads: the tag is rewound by the length of its shortest form. */
  function TagStart(s: seq<byte>): (i: nat)
    requires Varint.Length(s) > 0
    ensures i < Varint.Length(s) && i + |Varint.Encode(Head(s))| == Varint.Length(s)
  {
    Varint.ShortestIsShorter(s[..Varint.Length(s)]);
    Varint.Length(s) - |Varint.Encode(Head(s))|
  }

  /** What the default case makes of the result of `skipLog(data[index:])`, at position `i` of the rest `s` of an
      input of `l` bytes: the number of bytes to keep and pass over. */
  function Passed(r: Result<int>, i: nat, s: seq<byte>, l: int): (p: Result<nat>)
    requires i <= |s|
    ensures p.Ok? ==> i + p.value <= |s| && i + p.value > 0
  {
    if r.Fail? then Fail(r.error)
    else if l - |s| + i + r.value >= TWO_63 then Fail(Crash)
    else if i + r.value > |s| then Fail(Truncated)
    else if r.value < 0 then Fail(Crash)
    else if i + r.value == 0 then Fail(Stuck)
    else Ok(r.value)
  }

  /** The loop of `Unmarshal` on the rest `s` of an input of `l` bytes, with message `m` so far and the numbers
      `seen` of the fields met so far. */
  function Decode<M>(sc: Schema<M>, s: seq<byte>, l: int, m: M, seen: set<int>): Result<M>
    decreases |s|
  {
    if s == [] then Finish(sc.required, m, seen)
    else
      var n := Varint.Length(s);
      if n == 0 then Fail(Truncated)
      else
        var num := FieldNum(Head(s));
        var kind := sc.kind(num);
        if kind == UNKNOWN then
          var i := TagStart(s);
          var r := Passed(SkipLog(s[i..]), i, s, l);
          if r.Fail? then Fail(r.error)
          else Decode(sc, s[i + r.value..], l, sc.keep(m, s[i..i + r.value]), seen)
        else if Head(s) % 8 != kind then Fail(WrongWireType(num))
        else
          var r := ReadPayload(kind, s[n..], l);
          if r.Fail? then Fail(r.error)
          else
            var m' := sc.apply(m, num, r.value.0);
            if m'.Fail? then Fail(m'.error)
            else Decode(sc, s[n + r.value.1..], l, m'.value, seen + {num})
  }

  /** One round of the loop on a field of a known number: an accepted one is applied and passed over. */
  lemma {:induction false} DecodeRound<M>(sc: Schema<M>, s: seq<byte>, l: int, m: M, seen: set<int>)
    requires s != [] && Varint.Length(s) > 0 && sc.kind(FieldNum(Head(s))) != UNKNOWN
    ensures var num, n := FieldNum(Head(s)), Varint.Length(s);
            var kind := sc.kind(num);
            var r := ReadPayload(kind, s[n..], l);
            Decode(sc, s, l, m, seen) ==
              if Head(s) % 8 != kind then Fail(WrongWireType(num))
              else if r.Fail? then Fail(r.error)
              else var m' := sc.apply(m, num, r.value.0);
                   if m'.Fail? then Fail(m'.error)
                   else Decode(sc, s[n + r.value.1..], l, m'.value, seen + {num})
  {
    hide Head, FieldNum, ReadPayload, Varint.Length, SkipLog, Passed;
  }

  /** And on an unknown field: its bytes, from the shortest form of its tag on, are kept. */
  lemma {:induction false} DecodeUnknownRound<M>(sc: Schema<M>, s: seq<byte>, l: int, m: M, seen: set<int>)
    requires s != [] && Varint.Length(s) > 0 && sc.kind(FieldNum(Head(s))) == UNKNOWN
    ensures var i := TagStart(s);
            var r := Passed(SkipLog(s[i..]), i, s, l);
            Decode(sc, s, l, m, seen) ==
              if r.Fail? then Fail(r.error)
              else Decode(sc, s[i + r.value..], l, sc.keep(m, s[i..i + r.value]), seen)
  {
    hide Head, FieldNum, ReadPayload, Varint.Length, SkipLog, TagStart, Passed;
  }

  // ---------------------------------------------------------------------------------------------
  // Encoding of known fields
  // ---------------------------------------------------------------------------------------------

  function LittleEndianBytes(v: nat, n: nat): (s: seq<byte>)
    ensures |s| == n
  {
    if n == 0 then [] else [(v % 256) as byte] + LittleEndianBytes(v / 256, n - 1)
  }

  /** A field as the `MarshalTo` methods write it: every tag is a single byte. */
  datatype Known = Known(num: int, kind: int, payload: Payload)

  predicate Writable(k: Known) {
    && 1 <= k.num <= 15
    && match k.payload
       case Number(v) => v < TWO_64 && (k.kind == VARINT || k.kind == FIXED64)
       case Bytes(b) => |b| < TWO_63 && k.kind == BLOB
  }

  function PayloadBytes(k: Known): seq<byte> {
    match k.payload
    case Number(v) => if k.kind == VARINT then Varint.Encode(v) else LittleEndianBytes(v, 8)
    case Bytes(b) => Varint.Encode(|b|) + b
  }

  function KnownBytes(k: Known): seq<byte>
    requires Writable(k)
  {
    [(k.num * 8 + k.kind) as byte] + PayloadBytes(k)
  }

  predicate AllWritable(ks: seq<Known>) {
    forall k | k in ks :: Writable(k)
  }

  function AllBytes(ks: seq<Known>): seq<byte>
    requires AllWritable(ks)
  {
    if ks == [] then [] else KnownBytes(ks[0]) + AllBytes(ks[1..])
  }

  lemma {:induction false} AllBytesAppend(a: seq<Known>, b: seq<Known>)
    requires AllWritable(a) && AllWritable(b)
    ensures AllWritable(a + b) && AllBytes(a + b) == AllBytes(a) + AllBytes(b)
    decreases |a|
  {
    hide KnownBytes;
    if a == [] {
      assert a + b == b;
    } else {
      AllBytesAppend(a[1..], b);
      assert (a + b)[1..] == a[1..] + b;
    }
  }

  // ---------------------------------------------------------------------------------------------
  // Decoding undoes encoding
  // ---------------------------------------------------------------------------------------------

  lemma HeadOfVarint(t: seq<byte>, rest: seq<byte>)
    requires Varint.IsVarint(t)
    ensures Varint.Length(t + rest) == |t| && Head(t + rest) == Head(t)
  {
    Varint.LengthPrefix(t, rest);
    assert t[..|t|] == t;
  }

  lemma HeadOfEncoding(v: nat, rest: seq<byte>)
    requires v < TWO_64
    ensures Varint.Length(Varint.Encode(v) + rest) == |Varint.Encode(v)|
    ensures Head(Varint.Encode(v) + rest) == Head(Varint.Encode(v)) == v
  {
    var t := Varint.Encode(v);
    Varint.EncodeDecodes(v);
    HeadOfVarint(t, rest);
    assert t[..|t|] == t;
    Pow2Values();
    ModSmall(v, Pow2(64));
  }

  lemma {:induction false} LittleEndianDecodes(v: nat, n: nat)
    requires v < Pow2(8 * n)
    ensures LittleEndian(LittleEndianBytes(v, n)) == v
    decreases n
  {
    if n > 0 {
      assert Pow2(8) == 256;
      Pow2Adds(8, 8 * (n - 1));
      assert v / 256 < Pow2(8 * (n - 1));
      LittleEndianDecodes(v / 256, n - 1);
      assert LittleEndianBytes(v, n)[1..] == LittleEndianBytes(v / 256, n - 1);
    }
  }

  lemma NumberDecodes(k: Known, rest: seq<byte>, l: int)
    requires Writable(k) && k.payload.Number?
    ensures ReadPayload(k.kind, PayloadBytes(k) + rest, l) == Ok((k.payload, |PayloadBytes(k)|))
  {
    var v := k.payload.v;
    if k.kind == VARINT {
      HeadOfEncoding(v, rest);
    } else {
      Pow2Values();
      LittleEndianDecodes(v, 8);
      assert (PayloadBytes(k) + rest)[..8] == LittleEndianBytes(v, 8);
    }
  }

  lemma BlobDecodes(k: Known, rest: seq<byte>, l: int)
    requires Writable(k) && k.payload.Bytes? && l - |rest| < TWO_63
    ensures ReadPayload(k.kind, PayloadBytes(k) + rest, l) == Ok((k.payload, |PayloadBytes(k)|))
  {
    var b := k.payload.b;
    HeadOfEncoding(|b|, b + rest);
    hide Head, Varint.Length, Varint.Encode;
    var s, n := PayloadBytes(k) + rest, |Varint.Encode(|b|)|;
    assert s == Varint.Encode(|b|) + (b + rest);
    assert s[n..n + |b|] == b;
  }

  lemma PayloadDecodes(k: Known, rest: seq<byte>, l: int)
    requires Writable(k) && l - |rest| < TWO_63
    ensures ReadPayload(k.kind, PayloadBytes(k) + rest, l) == Ok((k.payload, |PayloadBytes(k)|))
  {
    if k.payload.Number? { NumberDecodes(k, rest, l); } else { BlobDecodes(k, rest, l); }
  }

  lemma TagByte(num: int, kind: int, rest: seq<byte>)
    requires 1 <= num <= 15 && 0 <= kind < 8
    ensures var s := [(num * 8 + kind) as byte] + rest;
            Varint.Length(s) == 1 && Head(s) % 8 == kind && FieldNum(Head(s)) == num
  {
    assert Varint.Encode(num * 8 + kind) == [(num * 8 + kind) as byte];
    HeadOfEncoding(num * 8 + kind, rest);
    hide Head;
    DivModUnique(num * 8 + kind, num, kind, 8);
  }

  /** A written field is read back and applied, whatever follows. */
  lemma {:induction false} DecodeKnown<M>(sc: Schema<M>, k: Known, rest: seq<byte>, l: int, m: M, seen: set<int>)
    requires Writable(k) && sc.kind(k.num) == k.kind && l - |rest| < TWO_63
    ensures Decode(sc, KnownBytes(k) + rest, l, m, seen)
         == match sc.apply(m, k.num, k.payload)
            case Fail(e) => Fail(e)
            case Ok(m') => Decode(sc, rest, l, m', seen + {k.num})
  {
    hide Head, FieldNum, ReadPayload, PayloadBytes, Varint.Length, SkipLog, Decode;
    var body := PayloadBytes(k);
    var tag := [(k.num * 8 + k.kind) as byte];
    var s := KnownBytes(k) + rest;
    Seqs.Assoc(tag, body, rest);
    TagByte(k.num, k.kind, body + rest);
    assert s[1..] == body + rest;
    PayloadDecodes(k, rest, l);
    Seqs.DropAppend(s, 1, body, rest);
    DecodeRound(sc, s, l, m, seen);
  }

  function ApplyAll<M>(sc: Schema<M>, ks: seq<Known>, m: M): Result<M>
    decreases |ks|
  {
    if ks == [] then Ok(m)
    else match sc.apply(m, ks[0].num, ks[0].payload)
         case Fail(e) => Fail(e)
         case Ok(m') => ApplyAll(sc, ks[1..], m')
  }

  function Numbers(ks: seq<Known>): set<int> {
    set k | k in ks :: k.num
  }

  lemma {:induction false} DecodeAll<M>(
    sc: Schema<M>, ks: seq<Known>, rest: seq<byte>, l: int, m: M, seen: set<int>)
    requires AllWritable(ks) && (forall k | k in ks :: sc.kind(k.num) == k.kind)
    requires ApplyAll(sc, ks, m).Ok? && l - |rest| < TWO_63
    ensures Decode(sc, AllBytes(ks) + rest, l, m, seen)
         == Decode(sc, rest, l, ApplyAll(sc, ks, m).value, seen + Numbers(ks))
    decreases |ks|
  {
    hide Decode, KnownBytes;
    if ks == [] {
      assert AllBytes(ks) + rest == rest;
      assert seen + Numbers(ks) == seen;
    } else {
      assert AllBytes(ks) + rest == KnownBytes(ks[0]) + (AllBytes(ks[1..]) + rest);
      DecodeKnown(sc, ks[0], AllBytes(ks[1..]) + rest, l, m, seen);
      var m' := sc.apply(m, ks[0].num, ks[0].payload).value;
      DecodeAll(sc, ks[1..], rest, l, m', seen + {ks[0].num});
      assert ks == [ks[0]] + ks[1..];
      assert seen + Numbers(ks) == seen + {ks[0].num} + Numbers(ks[1..]);
    }
  }

  lemma {:induction false} ApplyAllAppend<M>(sc: Schema<M>, a: seq<Known>, b: seq<Known>, m: M)
    ensures ApplyAll(sc, a + b, m) == match ApplyAll(sc, a, m)
                                      case Fail(e) => Fail(e)
                                      case Ok(m') => ApplyAll(sc, b, m')
    decreases |a|
  {
    if a == [] {
      assert a + b == b;
    } else {
      assert (a + b)[1..] == a[1..] + b;
      var r := sc.apply(m, a[0].num, a[0].payload);
      if r.Ok? {
        ApplyAllAppend(sc, a[1..], b, r.value);
      }
    }
  }
}
