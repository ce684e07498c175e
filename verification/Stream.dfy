/** The encoders, decoders and readers of native streams as objects.  What they read and write is what the
    functions of `Frames` say, whatever a pooled buffer held before. */
module Stream {

  import opened Wrappers
  import opened Bits
  import opened Wire
  import opened Messages
  import opened Frames
  import Seqs
  import Layout
  import MarshalTo
  import MessageRoundTrip
  import Unmarshal
  import Varint

  /** The size of the buffers in `pbBufPool`; later ones may be larger, and all come with stale contents. */
  const POOLED := 128

  // ---------------------------------------------------------------------------------------------
  // Writing
  // ---------------------------------------------------------------------------------------------

  /** An `io.Writer`: it takes everything, or fails after some part of it. */
  class Sink {
    var out: seq<byte>

    constructor ()
      ensures out == []
    {
      out := [];
    }

    method Write(b: seq<byte>) returns (ok: bool)
      modifies this
      ensures old(out) <= out <= old(out) + b
      ensures ok ==> out == old(out) + b
    {
      var k: nat :| k <= |b|;
      out := out + b[..k];
      ok := k == |b|;
    }
  }

  /** `Refused` is the error of `MarshalTo`, `WriteFailed` one of the writer. */
  datatype Encoded = Encoded(count: nat) | Refused(error: Error) | WriteFailed

  lemma HeadFits(size: nat)
    requires size < TWO_64
    ensures 1 + |Varint.Encode(size)| <= POOLED
  {
    Varint.TenBytes(size);
  }

  lemma PrefixGrows<T>(a: seq<T>, b: seq<T>, x: seq<T>, y: seq<T>)
    requires a <= b <= a + x
    ensures a <= b <= a + x + y
  {
  }

  lemma PrefixExtends<T>(a: seq<T>, b: seq<T>, c: seq<T>)
    requires a <= b <= c
    ensures a <= c
  {
  }

  /** `WriteUvarint`. */
  method WriteUvarint(w: Sink, x: nat) returns (ok: bool)
    requires x < TWO_64
    modifies w
    ensures old(w.out) <= w.out <= old(w.out) + Varint.Encode(x)
    ensures ok ==> w.out == old(w.out) + Varint.Encode(x)
  {
    Varint.TenBytes(x);
    hide Varint.Encode;
    var buf := new byte[10];
    var cnt := Varint.Put(buf, 0, x);
    assert buf[..cnt] == Varint.Encode(x);
    ok := w.Write(buf[..cnt]);
  }

  class Encoder {
    const w: Sink

    constructor (w: Sink)
      ensures this.w == w
    {
      this.w := w;
    }

    /** `Encode`, with the buffer taken from the pool and the one put back. */
    method Encode(m: Message, pooled: array<byte>) returns (r: Encoded, back: array<byte>)
      requires MessageOk(m) && Layout.MessageSize(m) < TWO_63 && pooled.Length >= POOLED
      modifies w, pooled
      ensures back.Length >= POOLED && (back == pooled || fresh(back))
      ensures r.Encoded? ==>
        && MessageBytes(m).Ok? && r.count == |MessageBytes(m).value| + 5
        && w.out == old(w.out) + Framed(MessageBytes(m).value)
      ensures r.Refused? ==>
        && MessageBytes(m) == Fail(r.error)
        && w.out == old(w.out) + ([PLUS] + Varint.Encode(Layout.MessageSize(m)))
      ensures r.WriteFailed? ==>
        old(w.out) <= w.out <= old(w.out) + ([PLUS] + Varint.Encode(Layout.MessageSize(m)))
                               + (if MessageBytes(m).Ok? then MessageBytes(m).value else [])
    {
      MarshalTo.Marshals(m);
      hide *;
      var size := Layout.SizeMessage(m);
      back := pooled;
      var ok := WriteHead(size, back);
      if !ok {
        ghost var body := if MessageBytes(m).Ok? then MessageBytes(m).value else [];
        PrefixGrows(old(w.out), w.out, [PLUS] + Varint.Encode(size), body);
        return WriteFailed, back;
      }
      if back.Length < size {
        back := new byte[size];
      }
      var r' := WriteBody(m, back);
      if r'.Encoded? {
        FramedIs(MessageBytes(m).value);
        Seqs.Assoc(old(w.out), [PLUS] + Varint.Encode(size), MessageBytes(m).value);
        return Encoded(size + 5), back;
      }
      if r'.WriteFailed? {
        PrefixExtends(old(w.out), old(w.out) + ([PLUS] + Varint.Encode(size)), w.out);
      }
      return r', back;
    }

    method WriteHead(size: nat, buf: array<byte>) returns (ok: bool)
      requires size < TWO_64 && buf.Length >= POOLED
      modifies w, buf
      ensures old(w.out) <= w.out <= old(w.out) + ([PLUS] + Varint.Encode(size))
      ensures ok ==> w.out == old(w.out) + ([PLUS] + Varint.Encode(size))
    {
      HeadFits(size);
      hide Varint.Encode;
      buf[0] := PLUS;
      var cnt := Varint.Put(buf, 1, size);
      assert buf[..cnt] == [PLUS] + Varint.Encode(size);
      ok := w.Write(buf[..cnt]);
    }

    method WriteBody(m: Message, buf: array<byte>) returns (r: Encoded)
      requires MessageOk(m) && Layout.MessageSize(m) <= buf.Length
      modifies w, buf
      ensures r.Refused? ==> MessageBytes(m) == Fail(r.error) && w.out == old(w.out)
      ensures !r.Refused? ==> MessageBytes(m).Ok? && old(w.out) <= w.out <= old(w.out) + MessageBytes(m).value
      ensures r.Encoded? ==> w.out == old(w.out) + MessageBytes(m).value
    {
      hide *;
      ghost var before := buf[..];
      var n := MarshalTo.MarshalMessage(m, buf);
      if n.Fail? {
        return Refused(n.error);
      }
      WroteFront(buf[..], before, MessageBytes(m).value);
      assert buf[..n.value] == buf[..][..n.value];
      var ok := w.Write(buf[..n.value]);
      r := if ok then Encoded(n.value) else WriteFailed;
    }
  }

  /** Only the front of the buffer is sent, and it holds nothing but the message. */
  lemma WroteFront(now: seq<byte>, before: seq<byte>, done: seq<byte>)
    requires MarshalTo.Wrote(now, before, 0, done)
    ensures |done| <= |now| && now[..|done|] == done
  {
  }

  lemma WroteAt(now: seq<byte>, before: seq<byte>, base: nat, done: seq<byte>)
    requires MarshalTo.Wrote(now, before, base, done)
    ensures |now| == |before| && base + |done| <= |now|
    ensures now[base..base + |done|] == done && now[..base] == before[..base]
    ensures now[base + |done|..] == before[base + |done|..]
  {
  }

  /** How the writer behind a `snappyWriter` fares: it takes everything, or fails after some bytes. */
  datatype Fault = Works | FailsAfter(k: nat)

  /** `snappyWriter`: bytes collect in `buf` until there are `chunkBuffer` of them; `forwarded` is what the
      compressor behind it has taken. */
  class SnappyWriter {
    const chunkBuffer: nat
    var forwarded: seq<byte>
    var buf: seq<byte>

    constructor (chunkBuffer: nat)
      ensures this.chunkBuffer == chunkBuffer && forwarded == [] && buf == []
    {
      this.chunkBuffer, forwarded, buf := chunkBuffer, [], [];
    }

    /** Everything written so far, in order, as long as no write fails. */
    function Written(): seq<byte>
      reads this
    {
      forwarded + buf
    }

    /** The write to the compressor. */
    method Forward(fault: Fault) returns (ok: bool)
      modifies `forwarded
      ensures ok <==> fault.Works? || fault.k >= |buf|
      ensures ok ==> forwarded == old(forwarded) + buf
      ensures !ok ==> forwarded == old(forwarded) + buf[..fault.k]
    {
      ok := fault.Works? || fault.k >= |buf|;
      forwarded := forwarded + if ok then buf else buf[..fault.k];
    }

    /** `Write`: on an error of the compressor nothing is reported as written, but all of it stays in the
        buffer, what the compressor took included, and the next write sends it again. */
    method Write(data: seq<byte>, fault: Fault) returns (n: nat, ok: bool)
      modifies this
      ensures ok <==> |old(buf) + data| < chunkBuffer || fault.Works? || fault.k >= |old(buf) + data|
      ensures ok ==> n == |data| && Written() == old(Written()) + data && (buf == [] || |buf| < chunkBuffer)
      ensures !ok ==> n == 0 && buf == old(buf) + data && forwarded == old(forwarded) + buf[..fault.k]
      ensures old(forwarded) <= forwarded
    {
      buf := buf + data;
      if |buf| < chunkBuffer {
        return |data|, true;
      }
      ok := Forward(fault);
      if !ok {
        return 0, false;
      }
      buf := [];
      return |data|, true;
    }

    /** `Flush`: on an error the buffer is emptied all the same, and what the compressor did not take is lost. */
    method Flush(fault: Fault) returns (ok: bool)
      modifies this
      ensures buf == [] && (ok <==> fault.Works? || fault.k >= |old(buf)|)
      ensures ok ==> forwarded == old(Written())
      ensures !ok ==> forwarded == old(forwarded) + old(buf)[..fault.k]
    {
      ok := true;
      if |buf| > 0 {
        ok := Forward(fault);
        buf := [];
      }
    }

    method Close(fault: Fault) returns (ok: bool)
      modifies this
      ensures buf == [] && (ok <==> fault.Works? || fault.k >= |old(buf)|)
      ensures ok ==> forwarded == old(Written())
      ensures !ok ==> forwarded == old(forwarded) + old(buf)[..fault.k]
    {
      ok := Flush(fault);
    }
  }

  /** `StreamEncoder`: before a header is written the encoder writes to `w` itself, afterwards into a
      compressor, whose input is `ew`. */
  class StreamEncoder {
    const w: Sink
    var ew: Sink
    var compression: Option<int>
    var enc: Encoder
    var encoded: nat
    /** What the messages since the header have left; and that no write has failed, and that all unknown fields in
        the messages are ones a decoder keeps. */
    ghost var items: seq<Item>
    ghost var regular: bool

    ghost predicate Valid()
      reads this, ew
    {
      && enc.w == ew
      && (compression.None? <==> ew == w)
      && (compression.Some? && regular ==> AllWritten(items) && ew.out == BytesOf(items))
    }

    constructor (w: Sink)
      ensures Valid() && fresh(enc) && this.w == w && compression == None && encoded == 0
    {
      this.w, ew, compression, encoded, items, regular := w, w, None, 0, [], true;
      enc := new Encoder(w);
    }

    /** What the reader at the other end gets once the compressor is flushed. */
    function Wire(c: Codec): seq<byte>
      reads this, w, ew
    {
      if compression.None? then w.out else w.out + c.deflate(compression.value, ew.out)
    }

    method WriteHeader(hdr: StreamHeader) returns (ok: bool)
      requires HeaderOk(hdr) && |HeaderBytes(hdr)| < TWO_64
      modifies w
      ensures old(w.out) <= w.out <= old(w.out) + Preamble(hdr)
      ensures ok ==> w.out == old(w.out) + Preamble(hdr)
    {
      PreambleBytes(hdr);
      hide *;
      ghost var head, body := Varint.Encode(|HeaderBytes(hdr)|), HeaderBytes(hdr);
      Seqs.Assoc([DASH], head, body);
      Seqs.Assoc(old(w.out), [DASH], head + body);
      ok := w.Write([DASH]);
      if !ok {
        PrefixGrows(old(w.out), w.out, [DASH], head + body);
        return;
      }
      var data := MarshalHeader(hdr);
      ok := WriteUvarint(w, |data|);
      Seqs.Assoc(old(w.out) + [DASH], head, body);
      if !ok {
        PrefixGrows(old(w.out) + [DASH], w.out, head, body);
        PrefixExtends(old(w.out), old(w.out) + [DASH], w.out);
        return;
      }
      PrefixExtends(old(w.out), old(w.out) + [DASH], w.out);
      ghost var before := w.out;
      ok := w.Write(data);
      PrefixExtends(old(w.out), before, w.out);
    }

    method WriteCustomHeader(hdr: StreamHeader) returns (ok: bool)
      requires Valid() && HeaderOk(hdr) && |HeaderBytes(hdr)| < TWO_64 && KnownCompression(Compression(hdr))
      modifies this, w
      ensures Valid() && encoded == old(encoded)
      ensures ok ==>
        && fresh(ew) && ew.out == [] && items == [] && regular
        && compression == Some(Compression(hdr)) && w.out == old(w.out) + Preamble(hdr)
      ensures !ok ==> ew == old(ew) && enc == old(enc) && old(w.out) <= w.out <= old(w.out) + Preamble(hdr)
    {
      ok := WriteHeader(hdr);
      if !ok {
        return;
      }
      ew := new Sink();
      compression := Some(Compression(hdr));
      enc := new Encoder(ew);
      items, regular := [], true;
    }

    /** `Receive`: the count `Encode` reports is added up. */
    method Receive(m: Message, pooled: array<byte>) returns (r: Encoded, back: array<byte>)
      requires Valid() && MessageOk(m) && Layout.MessageSize(m) < TWO_63 && pooled.Length >= POOLED
      modifies this`encoded, this`items, this`regular, ew, pooled
      ensures Valid() && back.Length >= POOLED && (back == pooled || fresh(back))
      ensures r.Encoded? ==>
        && MessageBytes(m).Ok? && ew.out == old(ew.out) + Framed(MessageBytes(m).value)
        && encoded == old(encoded) + |MessageBytes(m).value| + 5 && items == old(items) + [Sent(m)]
      ensures !r.Encoded? ==> encoded == old(encoded) && old(ew.out) <= ew.out
      ensures r.Refused? ==> MessageBytes(m).Fail? && items == old(items) + [Orphan(Layout.MessageSize(m))]
      ensures regular <==> old(regular) && !r.WriteFailed? && (r.Encoded? ==> Sendable(m))
    {
      hide MessageOk, Sendable, AllWritten, BytesOf, Layout.MessageSize, Framed, Varint.Encode, MessageBytes;
      SizePositive(m);
      r, back := enc.Encode(m, pooled);
      if r.Encoded? {
        encoded := encoded + r.count;
      }
      if regular && compression.Some? && !r.WriteFailed? {
        OneMore(items, m);
      }
      items := items + if r.Encoded? then [Sent(m)] else if r.Refused? then [Orphan(Layout.MessageSize(m))] else [];
      regular := regular && !r.WriteFailed? && (r.Encoded? ==> Sendable(m));
    }

    /** Whatever was accepted and refused on the way, the reader at the other end gets the header, and the accepted
        messages up to the first refused one that something follows. */
    lemma ReadsBack(c: Codec, hdr: StreamHeader)
      requires Inverts(c) && MessageRoundTrip.HeaderKept(hdr) && |HeaderBytes(hdr)| < TWO_63
      requires Valid() && regular && w.out == Preamble(hdr)
      requires compression == Some(Compression(hdr)) && KnownCompression(Compression(hdr))
      ensures var r := StreamRun(c, Wire(c));
              && r.0 == hdr && r.1 == Delivered(items) && (r.2 == Eof <==> NothingBehindOrphan(items))
              && (NothingBehindOrphan(items) ==> r.1 == ReceivedOf(items))
    {
      ItemsRoundTrip(c, hdr, items);
      hide StreamRun, Preamble, HeaderBytes, MessageRoundTrip.HeaderKept, Inverts, AllWritten, BytesOf, Delivered,
           ReceivedOf, NothingBehindOrphan;
    }
  }

  /** The version is always written. */
  lemma SizePositive(m: Message)
    requires MessageOk(m)
    ensures Layout.MessageSize(m) >= 1
  {
    hide Layout.AttributesBytes, Layout.TagsBytes, Layout.OptBlobBytes, Layout.OptNumberBytes, Varint.Encode, MessageOk;
  }

  lemma OneMore(xs: seq<Item>, m: Message)
    requires AllWritten(xs) && MessageOk(m) && 1 <= Layout.MessageSize(m) < TWO_63
    ensures MessageBytes(m).Ok? && Sendable(m) ==>
      AllWritten(xs + [Sent(m)]) && BytesOf(xs + [Sent(m)]) == BytesOf(xs) + Framed(MessageBytes(m).value)
    ensures var orphan := Orphan(Layout.MessageSize(m));
            && AllWritten(xs + [orphan])
            && BytesOf(xs + [orphan]) == BytesOf(xs) + ([PLUS] + Varint.Encode(Layout.MessageSize(m)))
  {
    hide MessageOk, Sendable, AllWritten, BytesOf, Layout.MessageSize, Framed, Varint.Encode;
    if MessageBytes(m).Ok? && Sendable(m) { BytesSnoc(xs, Sent(m)); }
    BytesSnoc(xs, Orphan(Layout.MessageSize(m)));
  }

  /** `hdr.Marshal()`. */
  method MarshalHeader(hdr: StreamHeader) returns (b: seq<byte>)
    requires HeaderOk(hdr)
    ensures b == HeaderBytes(hdr)
  {
    hide *;
    var size := Layout.SizeHeader(hdr);
    var data := new byte[size];
    ghost var before := data[..];
    var n := MarshalTo.MarshalHeader(hdr, data, 0);
    MarshalTo.WholeBuffer(data[..], before, HeaderBytes(hdr));
    return data[..];
  }

  lemma PreambleBytes(hdr: StreamHeader)
    requires HeaderOk(hdr)
    ensures Preamble(hdr) == [DASH] + Varint.Encode(|HeaderBytes(hdr)|) + HeaderBytes(hdr)
  {
  }

  // ---------------------------------------------------------------------------------------------
  // Reading
  // ---------------------------------------------------------------------------------------------

  /** A reader that has `rest` left; a buffered one remembers the last byte.  A read delivers at least one
      byte when it is asked for one and there is one. */
  class Reader {
    var rest: seq<byte>
    var last: Option<byte>

    constructor (rest: seq<byte>)
      ensures this.rest == rest && last == None
    {
      this.rest, last := rest, None;
    }

    method Read(buf: array<byte>, from: nat, n: nat) returns (count: nat, eof: bool)
      requires from + n <= buf.Length
      modifies this, buf
      ensures count <= n && (n > 0 && old(rest) != [] ==> count > 0)
      ensures eof <==> n > 0 && count == 0
      ensures eof ==> rest == []
      ensures old(rest) == buf[from..from + count] + rest
      ensures buf[..from] == old(buf[..from]) && buf[from + count..] == old(buf[from + count..])
    {
      var limit := if n < |rest| then n else |rest|;
      count :| 0 <= count <= limit && (limit > 0 ==> count > 0);
      var bytes := rest[..count];
      hide MarshalTo.Wrote;
      ghost var before := buf[..];
      var next := MarshalTo.Copy(buf, from, bytes);
      WroteAt(buf[..], before, from, bytes);
      rest := rest[count..];
      eof := count == 0 && n > 0;
    }

    method ReadByte() returns (b: Option<byte>)
      modifies this
      ensures old(rest) == [] ==> b == None && rest == [] && last == None
      ensures old(rest) != [] ==> b == Some(old(rest)[0]) && rest == old(rest)[1..] && last == b
    {
      if rest == [] {
        last := None;
        return None;
      }
      b, rest := Some(rest[0]), rest[1..];
      last := b;
    }

    method UnreadByte() returns (ok: bool)
      modifies this
      ensures ok <==> old(last).Some?
      ensures rest == if ok then [old(last).value] + old(rest) else old(rest)
    {
      ok := last.Some?;
      if ok {
        rest, last := [last.value] + rest, None;
      }
    }

    /** `ReadUvarint` and `binary.ReadUvarint`: one byte at a time. */
    method ReadVarint() returns (r: Varint.Uvarint)
      modifies this
      ensures r == Varint.ReadSpec(old(rest)) && (!r.Eof? ==> r.consumed <= |old(rest)|)
      ensures rest == if r.Eof? then [] else old(rest)[r.consumed..]
    {
      r := Varint.ReadUvarint(rest);
      rest := if r.Eof? then [] else rest[r.consumed..];
    }

    /** `io.ReadFull(r, buf[:n])`. */
    method ReadFull(buf: array<byte>, n: nat) returns (error: Option<StreamError>)
      requires n <= buf.Length
      modifies this, buf
      ensures error.None? <==> n <= |old(rest)|
      ensures error.None? ==> buf[..n] == old(rest)[..n] && rest == old(rest)[n..]
      ensures error.Some? ==> error.value == (if old(rest) == [] then Eof else UnexpectedEof) && rest == []
    {
      var count := if n < |rest| then n else |rest|;
      var bytes := rest[..count];
      hide MarshalTo.Wrote;
      ghost var before := buf[..];
      var next := MarshalTo.Copy(buf, 0, bytes);
      WroteAt(buf[..], before, 0, bytes);
      error := if n <= |rest| then None else Some(if rest == [] then Eof else UnexpectedEof);
      rest := rest[count..];
    }

    /** The body of a frame or header: a length and that many bytes, by way of a pooled buffer. */
    method ReadPrefixed(pooled: array<byte>) returns (r: Outcome<seq<byte>>)
      modifies this, pooled
      ensures (r, rest) == Prefixed(old(rest)) && (r.Got? ==> |r.value| < TWO_63)
    {
      hide Varint.ReadSpec;
      var length := ReadVarint();
      if length.Eof? {
        return Stop(Eof);
      }
      if length.Overflow? {
        return Stop(Overflow);
      }
      if length.x >= TWO_63 {
        return Stop(Panic);
      }
      var buf := pooled;
      if buf.Length < length.x {
        buf := new byte[length.x];
      }
      var error := ReadFull(buf, length.x);
      if error.Some? {
        return Stop(error.value);
      }
      Seqs.Split(old(rest), length.consumed, length.consumed + length.x, |old(rest)|);
      return Got(buf[..length.x]);
    }
  }

  /** `bytePeekReader`: gives back the byte that was probed. */
  class BytePeekReader {
    const b: byte
    const r: Reader
    var used: bool

    constructor (b: byte, r: Reader)
      ensures this.b == b && this.r == r && !used
    {
      this.b, this.r, used := b, r, false;
    }

    /** What it still delivers. */
    function Remaining(): seq<byte>
      reads this, r
    {
      (if used then [] else [b]) + r.rest
    }

    method Read(buf: array<byte>) returns (count: nat, eof: bool)
      requires buf.Length > 0
      modifies this, r, buf
      ensures count <= buf.Length && (old(Remaining()) != [] ==> count > 0)
      ensures eof ==> Remaining() == []
      ensures old(Remaining()) == buf[..count] + Remaining()
      ensures buf[count..] == old(buf[count..])
    {
      if !used {
        used := true;
        buf[0] := b;
        count, eof := r.Read(buf, 1, buf.Length - 1);
        count := count + 1;
        assert buf[..count] == buf[..1] + buf[1..count];
      } else {
        count, eof := r.Read(buf, 0, buf.Length);
      }
    }
  }

  class Decoder {
    const r: Reader
    var decoder: Option<Format>

    constructor (r: Reader)
      ensures this.r == r && decoder == None
    {
      this.r, decoder := r, None;
    }

    /** `probe`: the format shows in the first byte, which stays to be read. */
    method Probe() returns (error: Option<StreamError>)
      modifies this, r
      ensures r.rest == old(r.rest)
      ensures old(r.rest) == [] ==> error == Some(Eof) && decoder == old(decoder)
      ensures old(r.rest) != [] ==> error == None && decoder == Some(FormatOf(r.rest[0]))
    {
      var b := r.ReadByte();
      if b.None? {
        return Some(Eof);
      }
      var ok := r.UnreadByte();
      decoder := Some(FormatOf(b.value));
      return None;
    }

    /** `decodeNative`. */
    method Native(pooled: array<byte>) returns (m: Outcome<Message>)
      modifies r, pooled
      ensures (m, r.rest) == DecodeNative(old(r.rest))
    {
      hide Prefixed, DecodeBody;
      var b := r.ReadByte();
      if b.None? {
        return Stop(Eof);
      }
      if b.value != PLUS {
        return Stop(UnknownStreamType);
      }
      var body := r.ReadPrefixed(pooled);
      if body.Stop? {
        return Stop(body.error);
      }
      var u := Unmarshal.UnmarshalMessage(body.value, ZERO_MESSAGE.(version := 1));
      DecodeBodyIs(body.value);
      m := if u.Ok? then Got(u.value) else Stop(Undecoded(u.error));
    }

    method Decode(pooled: array<byte>) returns (m: Outcome<Message>)
      modifies this, r, pooled
      ensures old(decoder).None? && old(r.rest) == [] ==> m == Stop(Eof) && decoder.None? && r.rest == []
      ensures old(decoder).None? && old(r.rest) != [] ==> decoder == Some(FormatOf(old(r.rest)[0]))
      ensures old(decoder).Some? ==> decoder == old(decoder)
      ensures decoder == Some(Format.Native) ==> (m, r.rest) == DecodeNative(old(r.rest))
      ensures decoder.Some? && decoder.value != Format.Native ==>
        m == Stop(Other(decoder.value)) && r.rest == old(r.rest)
    {
      hide DecodeNative;
      if decoder.None? {
        var error := Probe();
        if error.Some? {
          return Stop(error.value);
        }
      }
      if decoder.value != Format.Native {
        return Stop(Other(decoder.value));
      }
      m := Native(pooled);
    }
  }

  /** `StreamDecoder`, with the decompressors as a parameter. */
  class StreamDecoder {
    const r: Reader
    const codec: Codec
    var init: bool
    var dec: Decoder
    var header: StreamHeader

    constructor (r: Reader, codec: Codec)
      ensures this.r == r && this.codec == codec && !init && header == ZERO_HEADER
      ensures dec.r == r && dec.decoder == None && fresh(dec)
    {
      this.r, this.codec, init, header := r, codec, false, ZERO_HEADER;
      dec := new Decoder(r);
    }

    /** `Probe`: after it the decoder reads what the header says is behind it. */
    method Probe(pooled: array<byte>) returns (error: Option<StreamError>)
      requires pooled.Length >= POOLED
      modifies this, r, pooled
      ensures init
      ensures var p := Frames.Probe(old(r.rest));
        match p.0
        case Stop(e) => error == Some(e) && header == old(header) && dec == old(dec) && r.rest == p.1
        case Got(h) =>
          if KnownCompression(Compression(h)) then
            && error == None && header == h && fresh(dec) && fresh(dec.r) && dec.decoder == None
            && dec.r.rest == codec.inflate(Compression(h), p.1)
          else error == Some(Panic) && header == h && dec == old(dec)
    {
      hide Prefixed, Wire.Decode, HeaderSchema;
      init := true;
      var count, eof := r.Read(pooled, 0, 1);
      if eof {
        return Some(Eof);
      }
      var left: seq<byte>;
      var probed := ZERO_HEADER;
      if pooled[0] != DASH {
        var peek := new BytePeekReader(pooled[0], r);
        left := peek.Remaining();
      } else {
        var body := r.ReadPrefixed(pooled);
        if body.Stop? {
          return Some(body.error);
        }
        var u := Unmarshal.UnmarshalHeader(body.value, ZERO_HEADER);
        if u.Fail? {
          return Some(Undecoded(u.error));
        }
        probed, left := u.value, r.rest;
      }
      header := probed;
      if !KnownCompression(Compression(probed)) {
        return Some(Panic);
      }
      var behind := new Reader(codec.inflate(Compression(probed), left));
      dec := new Decoder(behind);
      return None;
    }

    ghost predicate Valid()
      reads this
    {
      !init ==> header == ZERO_HEADER
    }

    /** What further calls of `Generate` will deliver, and the error after that. */
    ghost function Upcoming(): (seq<Message>, StreamError)
      reads this, r, dec, dec.r
    {
      if !init then (StreamRun(codec, r.rest).1, StreamRun(codec, r.rest).2)
      else if dec.decoder.None? then DecoderRun(dec.r.rest)
      else if dec.decoder.value == Format.Native then DecodeRun(dec.r.rest)
      else ([], Other(dec.decoder.value))
    }

    method Generate(pooled: array<byte>) returns (m: Outcome<Message>)
      requires Valid() && pooled.Length >= POOLED
      modifies this, r, dec, dec.r, pooled
      ensures init && Valid()
      ensures dec == old(dec) || (fresh(dec) && fresh(dec.r))
      ensures header == if old(init) then old(header) else StreamRun(codec, old(r.rest)).0
      ensures m.Got? ==> old(Upcoming().0) == [m.value] + Upcoming().0 && Upcoming().1 == old(Upcoming().1)
      ensures m.Stop? ==> old(Upcoming()) == ([], m.error)
    {
      hide DecodeNative, DecodeRun, Frames.Probe, Compression, KnownCompression;
      if !init {
        StreamRunIs(codec, r.rest);
        var error := Probe(pooled);
        if error.Some? {
          return Stop(error.value);
        }
      }
      ghost var s := dec.r.rest;
      DecodeRunIs(s);
      m := dec.Decode(pooled);
    }
  }

  lemma StreamRunIs(c: Codec, s: seq<byte>)
    ensures StreamRun(c, s) ==
            match Frames.Probe(s)
            case (Stop(e), _) => (ZERO_HEADER, [], e)
            case (Got(h), rest) =>
              if !KnownCompression(Compression(h)) then (h, [], Panic)
              else (h, DecoderRun(c.inflate(Compression(h), rest)).0, DecoderRun(c.inflate(Compression(h), rest)).1)
  {
    hide Frames.Probe, DecoderRun;
  }

  lemma DecodeRunIs(s: seq<byte>)
    ensures DecodeRun(s) == match DecodeNative(s)
                            case (Stop(e), _) => ([], e)
                            case (Got(m), rest) => ([m] + DecodeRun(rest).0, DecodeRun(rest).1)
  {
    hide DecodeNative;
  }

  /** A receiver that keeps what it is given. */
  class Collector {
    var got: seq<Message>

    constructor ()
      ensures got == []
    {
      got := [];
    }

    method Receive(m: Message)
      modifies this
      ensures got == old(got) + [m]
    {
      got := got + [m];
    }
  }

  /** `Glue`: everything the stream holds arrives, in order, and only a clean end of file is no error. */
  method Glue(gen: StreamDecoder, recv: Collector, pooled: array<byte>) returns (error: Option<StreamError>)
    requires gen.Valid() && pooled.Length >= POOLED
    modifies gen, gen.r, gen.dec, gen.dec.r, pooled, recv
    ensures recv.got == old(recv.got) + old(gen.Upcoming().0)
    ensures error == if old(gen.Upcoming().1) == Eof then None else Some(old(gen.Upcoming().1))
    ensures gen.header == if old(gen.init) then old(gen.header) else StreamRun(gen.codec, old(gen.r.rest)).0
  {
    hide StreamRun, DecodeRun, DecoderRun;
    ghost var all := gen.Upcoming();
    ghost var header := if gen.init then gen.header else StreamRun(gen.codec, gen.r.rest).0;
    while true
      invariant gen.Valid()
      invariant gen.dec == old(gen.dec) || (fresh(gen.dec) && fresh(gen.dec.r))
      invariant recv.got + gen.Upcoming().0 == old(recv.got) + all.0 && gen.Upcoming().1 == all.1
      invariant header == if gen.init then gen.header else StreamRun(gen.codec, gen.r.rest).0
      decreases |gen.Upcoming().0|
    {
      ghost var before := gen.Upcoming().0;
      var m := gen.Generate(pooled);
      if m.Stop? {
        return if m.error == Eof then None else Some(m.error);
      }
      Seqs.Assoc(recv.got, [m.value], gen.Upcoming().0);
      recv.Receive(m.value);
    }
  }
}
