/** The native stream format: `+`, a length, a message; optionally after `-`, a length and a stream header.
    What the decoders make of a byte sequence, and that they undo the encoders. */
module Frames {

  import opened Wrappers
  import opened Bits
  import opened Wire
  import opened Messages
  import opened MessageRoundTrip
  import Seqs
  import Varint
  import WireLengths

  /** `io.EOF`, `io.ErrUnexpectedEOF`, `ErrOverflow`, `ErrUnknownStreamType`, an error of `Unmarshal`; a panic, on
      an unknown compression, on a length that no slice can have or in `Unmarshal`; an `Unmarshal` that does not
      return; and input that goes to one of the other decoders. */
  datatype StreamError =
    | Eof
    | UnexpectedEof
    | Overflow
    | UnknownStreamType
    | Proto(error: Error)
    | Panic
    | Hang
    | Other(format: Format)

  /** How a failure of `Unmarshal` shows. */
  function Undecoded(e: Error): StreamError {
    if e == Crash then Panic else if e == Stuck then Hang else Proto(e)
  }

  datatype Format = Native | Kv | Json | Bare

  datatype Outcome<+T> = Got(value: T) | Stop(error: StreamError)

  const PLUS: byte := 0x2b
  const DASH: byte := 0x2d

  // ---------------------------------------------------------------------------------------------
  // Decoding
  // ---------------------------------------------------------------------------------------------

  /** A varint length and that many bytes; the second result is what is left to read.  A buffer of 2^63 bytes or
      more cannot be made.  `ReadFull` answers `EOF` when not even one byte of the body is there. */
  function Prefixed(s: seq<byte>): (r: (Outcome<seq<byte>>, seq<byte>))
    ensures r.0.Got? ==> |r.1| < |s|
  {
    match Varint.ReadSpec(s)
    case Eof => (Stop(Eof), [])
    case Overflow(consumed) => (Stop(Overflow), s[consumed..])
    case Read(n, consumed) =>
      if n >= TWO_63 then (Stop(Panic), s[consumed..])
      else if n <= |s| - consumed then (Got(s[consumed..consumed + n]), s[consumed + n..])
      else (Stop(if consumed == |s| then Eof else UnexpectedEof), [])
  }

  /** `Unmarshal` into a message of version 1. */
  function DecodeBody(b: seq<byte>): Outcome<Message> {
    match Decode(MessageSchema(), b, |b|, ZERO_MESSAGE.(version := 1), {})
    case Ok(m) => Got(m)
    case Fail(e) => Stop(Undecoded(e))
  }

  /** `decodeNative` on a reader that has `s` left. */
  function DecodeNative(s: seq<byte>): (r: (Outcome<Message>, seq<byte>))
    ensures r.0.Got? ==> |r.1| < |s|
  {
    if s == [] then (Stop(Eof), [])
    else if s[0] != PLUS then (Stop(UnknownStreamType), s[1..])
    else match Prefixed(s[1..])
         case (Got(b), rest) => (DecodeBody(b), rest)
         case (Stop(e), rest) => (Stop(e), rest)
  }

  /** All messages up to the first error, and that error. */
  function DecodeRun(s: seq<byte>): (seq<Message>, StreamError)
    decreases |s|
  {
    match DecodeNative(s)
    case (Stop(e), _) => ([], e)
    case (Got(m), rest) => ([m] + DecodeRun(rest).0, DecodeRun(rest).1)
  }

  /** `Decoder.probe`. */
  function FormatOf(b: byte): Format {
    if b == PLUS then Native else if b == 0x3e then Kv else if b == 0x7b then Json else Bare
  }

  function DecoderRun(s: seq<byte>): (seq<Message>, StreamError) {
    if s == [] then ([], Eof)
    else if FormatOf(s[0]) != Native then ([], Other(FormatOf(s[0])))
    else DecodeRun(s)
  }

  /** `StreamHeader.UnmarshalFrom` into a new header. */
  function ReadHeader(s: seq<byte>): (Outcome<StreamHeader>, seq<byte>) {
    match Prefixed(s)
    case (Stop(e), rest) => (Stop(e), rest)
    case (Got(b), rest) =>
      match Decode(HeaderSchema(), b, |b|, ZERO_HEADER, {})
      case Ok(h) => (Got(h), rest)
      case Fail(e) => (Stop(Undecoded(e)), rest)
  }

  /** `Probe.Probe`: the header, empty when there is none, and what the stream still delivers. */
  function Probe(s: seq<byte>): (Outcome<StreamHeader>, seq<byte>) {
    if s == [] then (Stop(Eof), [])
    else if s[0] != DASH then (Got(ZERO_HEADER), s)
    else ReadHeader(s[1..])
  }

  function Compression(h: StreamHeader): int {
    if h.compression.Some? then h.compression.value else 0
  }

  /** The compressors, by the code in the header; `Known` codes are NONE, SNAPPY and ZLIB. */
  datatype Codec = Codec(deflate: (int, seq<byte>) -> seq<byte>, inflate: (int, seq<byte>) -> seq<byte>)

  predicate KnownCompression(k: int) {
    0 <= k <= 2
  }

  ghost predicate Inverts(c: Codec) {
    && (forall k, b | KnownCompression(k) :: c.inflate(k, c.deflate(k, b)) == b)
    && (forall b :: c.inflate(0, b) == b)
  }

  /** A `StreamDecoder` on `s`, run to its first error. */
  function StreamRun(c: Codec, s: seq<byte>): (StreamHeader, seq<Message>, StreamError) {
    match Probe(s)
    case (Stop(e), _) => (ZERO_HEADER, [], e)
    case (Got(h), rest) =>
      if !KnownCompression(Compression(h)) then (h, [], Panic)
      else var r := DecoderRun(c.inflate(Compression(h), rest)); (h, r.0, r.1)
  }

  // ---------------------------------------------------------------------------------------------
  // Encoding
  // ---------------------------------------------------------------------------------------------

  function Framed(b: seq<byte>): seq<byte> {
    [PLUS] + Varint.Encode(|b|) + b
  }

  ghost predicate Sendable(m: Message) {
    MessageKept(m) && |MessageBytes(m).value| < TWO_63
  }

  ghost function Frame(m: Message): seq<byte>
    requires Sendable(m)
  {
    Framed(MessageBytes(m).value)
  }

  ghost predicate AllSendable(ms: seq<Message>) {
    forall m | m in ms :: Sendable(m)
  }

  ghost function FramesOf(ms: seq<Message>): seq<byte>
    requires AllSendable(ms)
  {
    if ms == [] then [] else Frame(ms[0]) + FramesOf(ms[1..])
  }

  /** `-`, a length and the header. */
  function Preamble(h: StreamHeader): seq<byte>
    requires HeaderOk(h)
  {
    [DASH] + Varint.Encode(|HeaderBytes(h)|) + HeaderBytes(h)
  }

  // ---------------------------------------------------------------------------------------------
  // One frame
  // ---------------------------------------------------------------------------------------------

  lemma PrefixedReads(b: seq<byte>, rest: seq<byte>)
    requires |b| < TWO_63
    ensures Prefixed(Varint.Encode(|b|) + b + rest) == (Got(b), rest)
  {
    var head := Varint.Encode(|b|);
    Seqs.Assoc(head, b, rest);
    Varint.UvarintRoundTrip(|b|, b + rest);
    hide Varint.Encode, Varint.ReadSpec;
    var s := head + b + rest;
    assert s[|head|..|head| + |b|] == b;
    assert s[|head| + |b|..] == rest;
  }

  lemma FramedDecodes(b: seq<byte>, rest: seq<byte>)
    requires |b| < TWO_63
    ensures DecodeNative(Framed(b) + rest) == (DecodeBody(b), rest)
  {
    FramedIs(b);
    PrefixedReads(b, rest);
    hide *;
    DecodeNativeIs(Framed(b) + rest);
    Seqs.DropFirst(PLUS, Varint.Encode(|b|), b, rest);
  }

  /** What a decoder makes of `m`: the version or-ed with 1. */
  function Received(m: Message): Message {
    m.(version := if m.version % 2 == 1 then m.version else m.version + 1)
  }

  lemma BodyDecodes(m: Message)
    requires Sendable(m)
    ensures DecodeBody(MessageBytes(m).value) == Got(Received(m))
  {
    SendableIs(m);
    hide *;
    VersionOneDecode(m);
    DecodeBodyIs(MessageBytes(m).value);
    ReceivedIs(m);
  }

  lemma SendableIs(m: Message)
    requires Sendable(m)
    ensures MessageKept(m) && MessageOk(m) && MessageBytes(m).Ok? && |MessageBytes(m).value| < TWO_63
  {
  }

  lemma DecodeBodyIs(b: seq<byte>)
    ensures DecodeBody(b) == match Decode(MessageSchema(), b, |b|, ZERO_MESSAGE.(version := 1), {})
                             case Ok(m) => Got(m)
                             case Fail(e) => Stop(Undecoded(e))
  {
    hide Decode, MessageSchema;
  }

  lemma ReceivedIs(m: Message)
    ensures Received(m) == m.(version := if m.version % 2 == 1 then m.version else m.version + 1)
  {
  }

  lemma FrameDecodes(m: Message, rest: seq<byte>)
    requires Sendable(m)
    ensures DecodeNative(Frame(m) + rest) == (Got(Received(m)), rest)
  {
    FramedDecodes(MessageBytes(m).value, rest);
    BodyDecodes(m);
    hide DecodeNative, DecodeBody, MessageBytes, MessageKept, Framed;
  }

  /** A frame cut short: `UnexpectedEof` once a byte of the body has arrived, before that a plain `Eof`,
      the same answer as at the end of a complete stream. */
  lemma CutFrame(b: seq<byte>, k: nat)
    requires |b| < TWO_63 && k < |Framed(b)|
    ensures DecodeNative(Framed(b)[..k]) == (Stop(if k > 1 + |Varint.Encode(|b|)| then UnexpectedEof else Eof), [])
  {
    FramedIs(b);
    assert |b| < TWO_64;
    hide *;
    var head := Varint.Encode(|b|);
    var s := Framed(b)[..k];
    DecodeNativeIs(s);
    if k > 0 {
      CutParts(PLUS, head, b, k);
      if k < 1 + |head| {
        CutVarint(|b|, k - 1);
      } else {
        Varint.UvarintRoundTrip(|b|, b[..k - 1 - |head|]);
      }
      PrefixedIs(s[1..]);
    }
  }

  lemma CutParts(x: byte, head: seq<byte>, b: seq<byte>, k: nat)
    requires 0 < k < 1 + |head| + |b|
    ensures var s := ([x] + head + b)[..k];
            s[0] == x && s[1..] == if k < 1 + |head| then head[..k - 1] else head + b[..k - 1 - |head|]
  {
  }

  lemma FramedIs(b: seq<byte>)
    ensures Framed(b) == [PLUS] + Varint.Encode(|b|) + b
  {
  }

  lemma PrefixedIs(s: seq<byte>)
    ensures match Varint.ReadSpec(s)
            case Eof => Prefixed(s) == (Stop(Eof), [])
            case Overflow(consumed) => true
            case Read(n, consumed) =>
              consumed <= |s| && (|s| - consumed < n < TWO_63 ==>
                Prefixed(s) == (Stop(if consumed == |s| then Eof else UnexpectedEof), []))
  {
  }

  lemma DecodeNativeIs(s: seq<byte>)
    ensures DecodeNative(s) ==
      if s == [] then (Stop(Eof), [])
      else if s[0] != PLUS then (Stop(UnknownStreamType), s[1..])
      else match Prefixed(s[1..])
           case (Got(b), rest) => (DecodeBody(b), rest)
           case (Stop(e), rest) => (Stop(e), rest)
  {
    hide Prefixed, DecodeBody;
  }

  lemma CutVarint(v: nat, k: nat)
    requires k < |Varint.Encode(v)|
    ensures Varint.ReadSpec(Varint.Encode(v)[..k]) == Varint.Eof
  {
    Varint.EncodeDecodes(v);
    Varint.LengthFinds(Varint.Encode(v));
    Varint.LengthFinds(Varint.Encode(v)[..k]);
  }

  lemma EncodeLength(v: nat, k: nat)
    requires k >= 1
    ensures |Varint.Encode(v)| <= k <==> v < Pow2(7 * k)
  {
    var n := |Varint.Encode(v)|;
    Varint.EncodeDecodes(v);
    Varint.ValueBound(Varint.Encode(v));
    hide Pow2;
    if n <= k {
      Pow2Monotone(7 * n, 7 * k);
    }
    if v < Pow2(7 * k) {
      Varint.SizeBound(v, k);
    }
  }

  /** The byte count that `Encode` reports, `Size() + 5`, covers the frame exactly below 2^28 bytes. */
  lemma ReportCovers(b: seq<byte>)
    ensures |Framed(b)| <= |b| + 5 <==> |b| < 0x1000_0000
  {
    EncodeLength(|b|, 4);
    assert Pow2(28) == 0x1000_0000 by {
      assert Pow2(8) == 256;
      Pow2Adds(8, 8);
      Pow2Adds(16, 8);
      Pow2Adds(24, 4);
    }
    hide Varint.Encode, Pow2;
  }

  // ---------------------------------------------------------------------------------------------
  // Sequences of frames
  // ---------------------------------------------------------------------------------------------

  function ReceivedAll(ms: seq<Message>): (r: seq<Message>)
    ensures |r| == |ms|
  {
    if ms == [] then [] else [Received(ms[0])] + ReceivedAll(ms[1..])
  }

  /** Exactly the messages of odd version arrive as they were sent. */
  lemma {:induction false} ReceivedUnchanged(ms: seq<Message>)
    ensures ReceivedAll(ms) == ms <==> forall m | m in ms :: m.version % 2 == 1
    decreases |ms|
  {
    if ms != [] {
      ReceivedUnchanged(ms[1..]);
      assert ms == [ms[0]] + ms[1..];
      if ReceivedAll(ms) == ms {
        assert ReceivedAll(ms)[1..] == ReceivedAll(ms[1..]) == ms[1..];
        assert Received(ms[0]) == ms[0];
      }
    }
  }

  lemma RunStep(s: seq<byte>, m: Message, rest: seq<byte>)
    requires DecodeNative(s) == (Got(m), rest)
    ensures DecodeRun(s) == ([m] + DecodeRun(rest).0, DecodeRun(rest).1)
  {
    hide DecodeNative;
  }

  lemma RunStops(s: seq<byte>, e: StreamError, rest: seq<byte>)
    requires DecodeNative(s) == (Stop(e), rest)
    ensures DecodeRun(s) == ([], e)
  {
    hide DecodeNative;
  }

  /** Any sequence of messages comes back in order, and then the end of the stream. */
  lemma {:induction false} SequenceRoundTrip(ms: seq<Message>)
    requires AllSendable(ms)
    ensures DecodeRun(FramesOf(ms)) == (ReceivedAll(ms), Eof)
    decreases |ms|
  {
    hide DecodeRun, DecodeNative, Sendable, Frame;
    if ms == [] {
      NothingLeft();
    } else {
      FrameDecodes(ms[0], FramesOf(ms[1..]));
      RunStep(FramesOf(ms), Received(ms[0]), FramesOf(ms[1..]));
      SequenceRoundTrip(ms[1..]);
    }
  }

  /** Sending one more message appends its frame. */
  lemma {:induction false} FramesSnoc(ms: seq<Message>, m: Message)
    requires AllSendable(ms) && Sendable(m)
    ensures FramesOf(ms + [m]) == FramesOf(ms) + Frame(m)
    decreases |ms|
  {
    hide Sendable, Frame;
    if ms == [] {
      assert [] + [m] == [m] && [m][1..] == [];
    } else {
      FramesSnoc(ms[1..], m);
      assert (ms + [m])[1..] == ms[1..] + [m];
      Seqs.Assoc(Frame(ms[0]), FramesOf(ms[1..]), Frame(m));
    }
  }

  lemma NothingLeft()
    ensures DecodeRun([]) == ([], Eof)
  {
  }

  /** How many whole frames the first `k` bytes hold. */
  ghost function Whole(ms: seq<Message>, k: nat): (n: nat)
    requires AllSendable(ms)
    ensures n <= |ms|
  {
    if ms == [] || k < |Frame(ms[0])| then 0 else 1 + Whole(ms[1..], k - |Frame(ms[0])|)
  }

  /** A stream cut after any number of bytes delivers exactly the messages whose frames are complete, and
      then one of the two end-of-file errors. */
  lemma {:induction false} CutStream(ms: seq<Message>, k: nat)
    requires AllSendable(ms) && k <= |FramesOf(ms)|
    ensures DecodeRun(FramesOf(ms)[..k]).0 == ReceivedAll(ms)[..Whole(ms, k)]
    ensures DecodeRun(FramesOf(ms)[..k]).1 in {Eof, UnexpectedEof}
    decreases |ms|
  {
    hide DecodeRun, DecodeNative, Sendable, Frame;
    var s := FramesOf(ms)[..k];
    if ms == [] {
      NothingLeft();
      assert s == [];
    } else {
      var n := |Frame(ms[0])|;
      if k < n {
        assert s == Frame(ms[0])[..k];
        CutFirst(ms[0], k);
      } else {
        assert s == Frame(ms[0]) + FramesOf(ms[1..])[..k - n];
        FrameDecodes(ms[0], FramesOf(ms[1..])[..k - n]);
        RunStep(s, Received(ms[0]), FramesOf(ms[1..])[..k - n]);
        CutStream(ms[1..], k - n);
        TakeMore(Received(ms[0]), ReceivedAll(ms[1..]), Whole(ms[1..], k - n));
      }
    }
  }

  lemma TakeMore<T>(x: T, s: seq<T>, n: nat)
    requires n <= |s|
    ensures ([x] + s)[..n + 1] == [x] + s[..n]
  {
  }

  lemma CutFirst(m: Message, k: nat)
    requires Sendable(m) && k < |Frame(m)|
    ensures DecodeRun(Frame(m)[..k]).0 == [] && DecodeRun(Frame(m)[..k]).1 in {Eof, UnexpectedEof}
  {
    var b := MessageBytes(m).value;
    CutFrame(b, k);
    hide DecodeNative, Framed, Varint.Encode, MessageBytes, MessageKept, DecodeRun;
    RunStops(Framed(b)[..k], if k > 1 + |Varint.Encode(|b|)| then UnexpectedEof else Eof, []);
  }

  // ---------------------------------------------------------------------------------------------
  // Whole streams
  // ---------------------------------------------------------------------------------------------

  lemma ProbeFinds(h: StreamHeader, rest: seq<byte>)
    requires HeaderKept(h) && |HeaderBytes(h)| < TWO_63
    ensures Probe(Preamble(h) + rest) == (Got(h), rest)
  {
    PreambleIs(h);
    hide *;
    HeaderRoundTrip(h);
    ProbeFindsBytes(HeaderBytes(h), h, rest);
  }

  lemma ProbeFindsBytes(b: seq<byte>, h: StreamHeader, rest: seq<byte>)
    requires |b| < TWO_63 && Decode(HeaderSchema(), b, |b|, ZERO_HEADER, {}) == Ok(h)
    ensures Probe([DASH] + Varint.Encode(|b|) + b + rest) == (Got(h), rest)
  {
    hide *;
    PrefixedReads(b, rest);
    var s := [DASH] + Varint.Encode(|b|) + b + rest;
    Seqs.DropFirst(DASH, Varint.Encode(|b|), b, rest);
    ReadHeaderIs(s[1..]);
    ProbeIs(s);
  }

  lemma PreambleIs(h: StreamHeader)
    requires HeaderKept(h)
    ensures HeaderOk(h) && Preamble(h) == [DASH] + Varint.Encode(|HeaderBytes(h)|) + HeaderBytes(h)
  {
    hide HeaderBytes, Varint.Encode;
  }

  lemma ReadHeaderIs(s: seq<byte>)
    ensures ReadHeader(s) == match Prefixed(s)
                             case (Stop(e), rest) => (Stop(e), rest)
                             case (Got(b), rest) =>
                               match Decode(HeaderSchema(), b, |b|, ZERO_HEADER, {})
                               case Ok(h) => (Got(h), rest)
                               case Fail(e) => (Stop(Undecoded(e)), rest)
  {
    hide Prefixed, Decode, HeaderSchema;
  }

  lemma ProbeIs(s: seq<byte>)
    ensures s != [] && s[0] == DASH ==> Probe(s) == ReadHeader(s[1..])
    ensures s != [] && s[0] != DASH ==> Probe(s) == (Got(ZERO_HEADER), s)
    ensures s == [] ==> Probe(s) == (Stop(Eof), [])
  {
    hide ReadHeader;
  }

  /** The decoder recognises a native stream by its first frame. */
  lemma NativeRun(ms: seq<Message>)
    requires AllSendable(ms)
    ensures DecoderRun(FramesOf(ms)) == (ReceivedAll(ms), Eof)
    ensures FramesOf(ms) != [] ==> FramesOf(ms)[0] == PLUS
  {
    SequenceRoundTrip(ms);
    hide DecodeRun, Sendable, ReceivedAll, Varint.Encode, MessageBytes;
    if ms == [] {
      NothingLeft();
    }
  }

  /** Header, messages and end of file, under any invertible compression. */
  lemma StreamRoundTrip(c: Codec, h: StreamHeader, ms: seq<Message>)
    requires Inverts(c) && AllSendable(ms)
    requires HeaderKept(h) && |HeaderBytes(h)| < TWO_63 && KnownCompression(Compression(h))
    ensures StreamRun(c, Preamble(h) + c.deflate(Compression(h), FramesOf(ms))) == (h, ReceivedAll(ms), Eof)
  {
    ProbeFinds(h, c.deflate(Compression(h), FramesOf(ms)));
    NativeRun(ms);
    hide Probe, Preamble, DecoderRun, FramesOf, ReceivedAll, HeaderKept, HeaderBytes, Compression, AllSendable;
  }

  /** A native stream without a header: the probed byte is given back, and no compression is assumed. */
  lemma HeaderlessRoundTrip(c: Codec, ms: seq<Message>)
    requires Inverts(c) && AllSendable(ms)
    ensures StreamRun(c, FramesOf(ms)) == (ZERO_HEADER, ReceivedAll(ms), Eof)
  {
    NativeRun(ms);
    hide DecoderRun, FramesOf, ReceivedAll, AllSendable, ReadHeader;
    if FramesOf(ms) == [] {
      EmptyRun(ms);
    }
  }

  lemma EmptyRun(ms: seq<Message>)
    requires AllSendable(ms) && FramesOf(ms) == []
    ensures ReceivedAll(ms) == []
  {
    hide Sendable, MessageBytes, Varint.Encode;
  }

  // ---------------------------------------------------------------------------------------------
  // A message that cannot be marshalled
  // ---------------------------------------------------------------------------------------------

  /** `Encode` writes the head of the frame before `MarshalTo` refuses a message without timestamp or type.
      Whatever the size of the refused message: the message that is sent next is then not decoded, and the
      stream ends with an error at that point. */
  lemma OrphanHeadBreaksNext(size: nat, m: Message, more: seq<byte>)
    requires 1 <= size < TWO_63 && Sendable(m)
    ensures DecodeNative([PLUS] + Varint.Encode(size) + (Frame(m) + more)).0 ==
      Stop(if size <= |Frame(m) + more| then Proto(WrongWireType(5)) else UnexpectedEof)
  {
    FrameIs(m);
    assert Frame(m) != [] && Frame(m)[0] == PLUS;
    hide *;
    OrphanBreaks(size, Frame(m) + more);
  }

  lemma OrphanBreaks(size: nat, s: seq<byte>)
    requires 1 <= size < TWO_63 && s != [] && s[0] == PLUS
    ensures DecodeNative([PLUS] + Varint.Encode(size) + s).0 ==
      Stop(if size <= |s| then Proto(WrongWireType(5)) else UnexpectedEof)
  {
    hide *;
    if size <= |s| {
      Seqs.Split(s, 0, size, |s|);
      OrphanHead(size, s[..size], s[size..]);
      assert s == s[..size] + s[size..];
    } else {
      Seqs.Nil(s);
      OrphanEnd(size, s);
    }
  }

  lemma FrameIs(m: Message)
    requires Sendable(m)
    ensures MessageOk(m) && MessageBytes(m).Ok?
    ensures Frame(m) == [PLUS] + Varint.Encode(|MessageBytes(m).value|) + MessageBytes(m).value
  {
    SendableIs(m);
    hide Varint.Encode, MessageBytes, MessageKept;
  }

  lemma OrphanHead(size: nat, body: seq<byte>, rest: seq<byte>)
    requires |body| == size && 1 <= size < TWO_63 && body[0] == PLUS
    ensures DecodeNative([PLUS] + Varint.Encode(size) + (body + rest)).0 == Stop(Proto(WrongWireType(5)))
  {
    FramedIs(body);
    hide DecodeNative, DecodeBody, Framed, Varint.Encode;
    Seqs.Assoc([PLUS] + Varint.Encode(size), body, rest);
    FramedDecodes(body, rest);
    GroupTagRefused(body);
  }

  lemma OrphanEnd(size: nat, s: seq<byte>)
    requires |s| < size < TWO_63 && s != []
    ensures DecodeNative([PLUS] + Varint.Encode(size) + s).0 == Stop(UnexpectedEof)
  {
    Varint.UvarintRoundTrip(size, s);
    hide Varint.Encode, Varint.ReadSpec, DecodeBody;
    Seqs.DropFirst(PLUS, Varint.Encode(size), s, []);
    Seqs.Nil([PLUS] + Varint.Encode(size) + s);
    Seqs.Nil(Varint.Encode(size) + s);
  }

  /** A frame head read as a field is a group of number 5, which the tags are not. */
  lemma GroupTagRefused(b: seq<byte>)
    requires b != [] && b[0] == PLUS
    ensures DecodeBody(b) == Stop(Proto(WrongWireType(5)))
  {
    TagByte(5, 3, b[1..]);
    assert [(5 * 8 + 3) as byte] + b[1..] == b;
    MessageKindOf(5);
    hide *;
    DecodeRound(MessageSchema(), b, |b|, ZERO_MESSAGE.(version := 1), {});
    DecodeBodyIs(b);
    WrongTypeShows();
  }

  lemma WrongTypeShows()
    ensures Undecoded(WrongWireType(5)) == Proto(WrongWireType(5))
  {
  }

  lemma MessageKindOf(num: int)
    ensures MessageSchema().kind(num) == MessageKind(num) && MessageKind(5) == BLOB
  {
  }

  /** What `Encode` leaves behind for one message: its frame, or, when it is refused, the head of a frame of
      that size. */
  datatype Item = Sent(m: Message) | Orphan(size: nat)

  ghost predicate Written(x: Item) {
    match x
    case Sent(m) => Sendable(m)
    case Orphan(size) => 1 <= size < TWO_63
  }

  ghost predicate AllWritten(xs: seq<Item>) {
    forall x | x in xs :: Written(x)
  }

  ghost function ItemBytes(x: Item): seq<byte>
    requires Written(x)
  {
    match x
    case Sent(m) => Frame(m)
    case Orphan(size) => [PLUS] + Varint.Encode(size)
  }

  ghost function BytesOf(xs: seq<Item>): seq<byte>
    requires AllWritten(xs)
  {
    if xs == [] then [] else ItemBytes(xs[0]) + BytesOf(xs[1..])
  }

  /** The messages that were accepted, as they are received. */
  function ReceivedOf(xs: seq<Item>): seq<Message> {
    if xs == [] then []
    else (if xs[0].Sent? then [Received(xs[0].m)] else []) + ReceivedOf(xs[1..])
  }

  /** Those of them in front of the first refused one. */
  function Delivered(xs: seq<Item>): seq<Message> {
    if xs == [] || xs[0].Orphan? then [] else [Received(xs[0].m)] + Delivered(xs[1..])
  }

  /** Nothing was written behind a refused message. */
  predicate NothingBehindOrphan(xs: seq<Item>) {
    forall i | 0 <= i < |xs| - 1 :: xs[i].Sent?
  }

  /** What a decoder makes of accepted and refused messages in any order: it delivers what comes before the first
      refused one, and the stream ends cleanly if and only if nothing was written behind that. */
  lemma {:induction false} ItemsRun(xs: seq<Item>)
    requires AllWritten(xs)
    ensures DecodeRun(BytesOf(xs)).0 == Delivered(xs)
    ensures DecodeRun(BytesOf(xs)).1 == Eof <==> NothingBehindOrphan(xs)
    ensures NothingBehindOrphan(xs) ==> Delivered(xs) == ReceivedOf(xs)
    decreases |xs|
  {
    hide DecodeRun, DecodeNative, Sendable, Frame, Varint.Encode;
    assert xs != [] ==> Written(xs[0]);
    if xs == [] {
      NothingLeft();
    } else if xs[0].Sent? {
      FrameDecodes(xs[0].m, BytesOf(xs[1..]));
      RunStep(BytesOf(xs), Received(xs[0].m), BytesOf(xs[1..]));
      ItemsRun(xs[1..]);
      NothingBehindRest(xs);
    } else if |xs| == 1 {
      OrphanLast(xs[0].size);
      assert xs[1..] == [];
      Seqs.Nil(ItemBytes(xs[0]));
    } else {
      ItemsBegin(xs[1..]);
      OrphanStops(xs[0].size, BytesOf(xs[1..]));
      assert !xs[0].Sent?;
    }
  }

  lemma NothingBehindRest(xs: seq<Item>)
    requires xs != [] && xs[0].Sent?
    ensures NothingBehindOrphan(xs) <==> NothingBehindOrphan(xs[1..])
  {
    if NothingBehindOrphan(xs[1..]) {
      forall i | 0 <= i < |xs| - 1
        ensures xs[i].Sent?
      {
        if i > 0 { assert xs[1..][i - 1].Sent?; }
      }
    }
  }

  lemma ItemsBegin(xs: seq<Item>)
    requires AllWritten(xs)
    ensures xs != [] ==> BytesOf(xs) != [] && BytesOf(xs)[0] == PLUS
  {
    assert xs != [] ==> Written(xs[0]);
    if xs != [] && xs[0].Sent? { FrameIs(xs[0].m); }
    hide Sendable, Frame, Varint.Encode;
  }

  /** Behind the head of a refused message every frame, and every other such head, is taken for its body. */
  lemma OrphanStops(size: nat, s: seq<byte>)
    requires 1 <= size < TWO_63 && s != [] && s[0] == PLUS
    ensures DecodeRun([PLUS] + Varint.Encode(size) + s).0 == []
    ensures DecodeRun([PLUS] + Varint.Encode(size) + s).1
         == if size <= |s| then Proto(WrongWireType(5)) else UnexpectedEof
  {
    OrphanBreaks(size, s);
    hide *;
    var t := [PLUS] + Varint.Encode(size) + s;
    RunStops(t, DecodeNative(t).0.error, DecodeNative(t).1);
  }

  lemma OrphanLast(size: nat)
    requires 1 <= size < TWO_63
    ensures DecodeRun([PLUS] + Varint.Encode(size)) == ([], Eof)
  {
    Varint.UvarintRoundTrip(size, []);
    Seqs.Nil(Varint.Encode(size));
    hide Varint.Encode, Varint.ReadSpec, DecodeBody;
    assert ([PLUS] + Varint.Encode(size))[1..] == Varint.Encode(size);
  }

  /** One more message appends one item. */
  lemma {:induction false} BytesSnoc(xs: seq<Item>, x: Item)
    requires AllWritten(xs) && Written(x)
    ensures AllWritten(xs + [x]) && BytesOf(xs + [x]) == BytesOf(xs) + ItemBytes(x)
    decreases |xs|
  {
    hide Written, ItemBytes;
    if xs == [] {
      assert [] + [x] == [x] && [x][1..] == [];
    } else {
      BytesSnoc(xs[1..], x);
      assert (xs + [x])[1..] == xs[1..] + [x];
      Seqs.Assoc(ItemBytes(xs[0]), BytesOf(xs[1..]), ItemBytes(x));
    }
  }

  function AllSent(ms: seq<Message>): (xs: seq<Item>)
    ensures |xs| == |ms|
  {
    if ms == [] then [] else [Sent(ms[0])] + AllSent(ms[1..])
  }

  /** Without refused messages this is the sequence of frames. */
  lemma {:induction false} FramesAreItems(ms: seq<Message>)
    requires AllSendable(ms)
    ensures AllWritten(AllSent(ms)) && BytesOf(AllSent(ms)) == FramesOf(ms)
    ensures NothingBehindOrphan(AllSent(ms)) && ReceivedOf(AllSent(ms)) == ReceivedAll(ms)
    decreases |ms|
  {
    hide Sendable, Frame;
    if ms != [] {
      FramesAreItems(ms[1..]);
      NothingBehindRest(AllSent(ms));
      assert Sendable(ms[0]);
    }
  }

  /** The decoder recognises such a stream by its first byte. */
  lemma ItemsDecode(xs: seq<Item>)
    requires AllWritten(xs)
    ensures DecoderRun(BytesOf(xs)) == DecodeRun(BytesOf(xs))
  {
    ItemsBegin(xs);
    NothingLeft();
    hide DecodeRun, ItemBytes, Written;
  }

  /** A whole stream of accepted and refused messages, behind its header and under any invertible compression. */
  lemma ItemsRoundTrip(c: Codec, h: StreamHeader, xs: seq<Item>)
    requires Inverts(c) && AllWritten(xs)
    requires HeaderKept(h) && |HeaderBytes(h)| < TWO_63 && KnownCompression(Compression(h))
    ensures var r := StreamRun(c, Preamble(h) + c.deflate(Compression(h), BytesOf(xs)));
            && r.0 == h && r.1 == Delivered(xs) && (r.2 == Eof <==> NothingBehindOrphan(xs))
            && (NothingBehindOrphan(xs) ==> r.1 == ReceivedOf(xs))
  {
    ProbeFinds(h, c.deflate(Compression(h), BytesOf(xs)));
    ItemsRun(xs);
    ItemsDecode(xs);
    hide Probe, Preamble, DecoderRun, BytesOf, Delivered, HeaderKept, HeaderBytes, Compression, AllWritten,
         NothingBehindOrphan, ReceivedOf;
  }

  // ---------------------------------------------------------------------------------------------
  // Lengths out of range
  // ---------------------------------------------------------------------------------------------

  /** A frame whose message begins with a field of number 7 and length -11 stops the decoder forever. */
  lemma HangingFrame(tail: seq<byte>, rest: seq<byte>)
    requires |tail| < TWO_63 - 11
    ensures var b := [0x3a] + ([0xf5, 0xff, 0xff, 0xff, 0xff, 0xff, 0xff, 0xff, 0xff, 0x01] + tail);
            DecodeNative(Framed(b) + rest) == (Stop(Hang), rest)
  {
    var b := [0x3a] + ([0xf5, 0xff, 0xff, 0xff, 0xff, 0xff, 0xff, 0xff, 0xff, 0x01] + tail);
    assert |b| == 11 + |tail|;
    hide DecodeNative, DecodeBody, Decode, MessageSchema, Framed;
    WireLengths.HangingMessage(tail, ZERO_MESSAGE.(version := 1));
    DecodeBodyIs(b);
    FramedDecodes(b, rest);
  }

  /** And one that claims 2^63 bytes or more makes it panic. */
  lemma HugeFramePanics(n: nat, rest: seq<byte>)
    requires TWO_63 <= n < TWO_64
    ensures DecodeNative([PLUS] + Varint.Encode(n) + rest).0 == Stop(Panic)
  {
    Varint.UvarintRoundTrip(n, rest);
    hide Varint.Encode, Varint.ReadSpec, DecodeBody;
    assert ([PLUS] + Varint.Encode(n) + rest)[1..] == Varint.Encode(n) + rest;
  }
}
