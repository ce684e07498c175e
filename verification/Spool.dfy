/** The spool: messages go into a current file, which is rotated away when it is full; the oldest rotated
    file is removed when there are too many. */
module Spool {

  import opened Wrappers
  import opened Bits
  import opened Wire
  import opened Messages
  import opened Frames
  import opened MessageRoundTrip
  import Layout
  import Seqs
  import MarshalTo
  import Stream
  import Varint

  /** A rotated file: its name, a TAI64N label that sorts like its time, and its decompressed contents. */
  datatype Entry = Entry(name: nat, plain: seq<byte>)

  /** The directory as `ReadDir` lists it, in the order of names. */
  predicate Sorted(listing: seq<Entry>) {
    forall i, j | 0 <= i < j < |listing| :: listing[i].name < listing[j].name
  }

  predicate Newer(listing: seq<Entry>, name: nat) {
    forall i | 0 <= i < |listing| :: listing[i].name < name
  }

  /** `os.Rename` into the directory: a file of that name is replaced. */
  function Insert(listing: seq<Entry>, e: Entry): seq<Entry> {
    if listing == [] then [e]
    else if listing[0].name == e.name then [e] + listing[1..]
    else if listing[0].name > e.name then [e] + listing
    else [listing[0]] + Insert(listing[1..], e)
  }

  /** A newer name comes last, and nothing is replaced. */
  lemma {:induction false} InsertNewest(listing: seq<Entry>, e: Entry)
    requires Newer(listing, e.name)
    ensures Insert(listing, e) == listing + [e]
    decreases |listing|
  {
    if listing != [] {
      InsertNewest(listing[1..], e);
      assert listing[0].name < e.name;
    }
  }

  /** A name that is there already costs a file. */
  lemma {:induction false} InsertClash(listing: seq<Entry>, e: Entry)
    requires Sorted(listing)
    ensures |Insert(listing, e)| == |listing| <==> exists i :: 0 <= i < |listing| && listing[i].name == e.name
    ensures |listing| <= |Insert(listing, e)| <= |listing| + 1
    decreases |listing|
  {
    if listing != [] {
      var rest := listing[1..];
      InsertClash(rest, e);
      assert listing == [listing[0]] + rest;
      if listing[0].name < e.name {
        if i :| 0 <= i < |rest| && rest[i].name == e.name {
          assert listing[i + 1].name == e.name;
        }
        if i :| 0 <= i < |listing| && listing[i].name == e.name {
          assert rest[i - 1].name == e.name;
        }
      } else if listing[0].name > e.name {
        forall i | 0 <= i < |listing|
          ensures listing[i].name != e.name
        {
        }
      }
    }
  }

  // ---------------------------------------------------------------------------------------------
  // Reading the files back
  // ---------------------------------------------------------------------------------------------

  /** The header of every spool file: `enc.Init(cypress.SNAPPY)`. */
  const HEADER := StreamHeader(Some(1), None, [])

  lemma HeaderIs()
    ensures HeaderKept(HEADER) && |HeaderBytes(HEADER)| < TWO_63 && Compression(HEADER) == 1
    ensures HeaderOk(HEADER) && KnownCompression(1)
  {
    var none: seq<WF.Field> := [];
    assert WF.FieldsBytes(none) == [] && Retained(HeaderSchema(), []);
    assert Extend(1) == 1 && Varint.Encode(1) == [1];
    var k := Known(1, VARINT, Number(1));
    assert HeaderFields(HEADER) == [k] && [k][1..] == [];
    assert AllBytes([k]) == KnownBytes(k) + AllBytes([k][1..]);
  }

  /** A spool file on disk: the header, and the frames through the compressor. */
  function FileBytes(c: Codec, plain: seq<byte>): seq<byte> {
    HeaderIs();
    Preamble(HEADER) + c.deflate(1, plain)
  }

  function DiskFiles(c: Codec, plains: seq<seq<byte>>): (s: seq<seq<byte>>)
    ensures |s| == |plains|
  {
    if plains == [] then [] else [FileBytes(c, plains[0])] + DiskFiles(c, plains[1..])
  }

  /** The files one after another, each read by a `StreamDecoder` up to its end; any other error stops. */
  function FilesRun(c: Codec, files: seq<seq<byte>>): (seq<Message>, StreamError) {
    if files == [] then ([], Eof)
    else
      var (_, ms, e) := StreamRun(c, files[0]);
      if e != Eof then (ms, e) else (ms + FilesRun(c, files[1..]).0, FilesRun(c, files[1..]).1)
  }

  /** What the encoder counts for a message. */
  ghost function Count(x: Item): nat
    requires Written(x)
  {
    match x
    case Orphan(_) => 0
    case Sent(m) => CountOf(m)
  }

  ghost function CountOf(m: Message): nat
    requires Sendable(m)
  {
    SendableIs(m);
    |MessageBytes(m).value| + 5
  }

  ghost function Reported(xs: seq<Item>): nat
    requires AllWritten(xs)
  {
    if xs == [] then 0 else Reported(xs[..|xs| - 1]) + Count(xs[|xs| - 1])
  }

  /** What was written into several files. */
  ghost function Flatten(parts: seq<seq<Item>>): seq<Item> {
    if parts == [] then [] else parts[0] + Flatten(parts[1..])
  }

  lemma {:induction false} FlattenSnoc(parts: seq<seq<Item>>, p: seq<Item>)
    ensures Flatten(parts + [p]) == Flatten(parts) + p
    decreases |parts|
  {
    if parts == [] {
      assert [] + [p] == [p] && [p][1..] == [];
    } else {
      FlattenSnoc(parts[1..], p);
      assert (parts + [p])[1..] == parts[1..] + [p];
    }
  }

  /** `listing` holds what `parts` left, file by file. */
  ghost predicate Holds(listing: seq<Entry>, parts: seq<seq<Item>>) {
    && |listing| == |parts|
    && forall i | 0 <= i < |parts| :: AllWritten(parts[i]) && listing[i].plain == BytesOf(parts[i])
  }

  function Contents(listing: seq<Entry>): (s: seq<seq<byte>>)
    ensures |s| == |listing|
  {
    if listing == [] then [] else [listing[0].plain] + Contents(listing[1..])
  }

  lemma {:induction false} ReceivedAppend(a: seq<Item>, b: seq<Item>)
    ensures ReceivedOf(a + b) == ReceivedOf(a) + ReceivedOf(b)
    decreases |a|
  {
    if a == [] {
      assert a + b == b;
    } else {
      ReceivedAppend(a[1..], b);
      assert (a + b)[1..] == a[1..] + b;
      Seqs.Assoc(if a[0].Sent? then [Received(a[0].m)] else [], ReceivedOf(a[1..]), ReceivedOf(b));
    }
  }

  lemma HoldsRest(listing: seq<Entry>, parts: seq<seq<Item>>)
    requires Holds(listing, parts) && listing != []
    ensures AllWritten(parts[0]) && listing[0].plain == BytesOf(parts[0]) && Holds(listing[1..], parts[1..])
  {
    hide AllWritten, BytesOf;
  }

  lemma FilesRunIs(c: Codec, files: seq<seq<byte>>)
    requires files != []
    ensures var r := StreamRun(c, files[0]);
            FilesRun(c, files) ==
              if r.2 != Eof then (r.1, r.2) else (r.1 + FilesRun(c, files[1..]).0, FilesRun(c, files[1..]).1)
  {
    hide StreamRun;
  }

  /** A file is read as its frames are. */
  lemma FileRuns(c: Codec, plain: seq<byte>)
    requires Inverts(c)
    ensures StreamRun(c, FileBytes(c, plain)) == (HEADER, DecoderRun(plain).0, DecoderRun(plain).1)
  {
    HeaderIs();
    hide HeaderKept, Preamble, DecoderRun, HeaderBytes, Compression, Probe;
    ProbeFinds(HEADER, c.deflate(1, plain));
    Stream.StreamRunIs(c, FileBytes(c, plain));
  }

  /** No file holds anything behind a refused message. */
  predicate AllReadable(files: seq<seq<Item>>) {
    forall f | f in files :: NothingBehindOrphan(f)
  }

  /** The messages of the files up to the first refused one with something behind it. */
  function DeliveredAll(files: seq<seq<Item>>): seq<Message> {
    if files == [] then []
    else Delivered(files[0]) + if NothingBehindOrphan(files[0]) then DeliveredAll(files[1..]) else []
  }

  ghost predicate FilesWritten(files: seq<seq<Item>>) {
    forall f | f in files :: AllWritten(f)
  }

  ghost function Plains(files: seq<seq<Item>>): seq<seq<byte>>
    requires FilesWritten(files)
  {
    if files == [] then [] else [BytesOf(files[0])] + Plains(files[1..])
  }

  lemma NoFiles(c: Codec)
    ensures FilesRun(c, []) == ([], Eof)
  {
  }

  /** The files are read up to the first refused message with something behind it in its file, and they are read to
      the end, all accepted messages in order, if and only if there is none. */
  lemma {:induction false} FilesReadBack(c: Codec, files: seq<seq<Item>>)
    requires Inverts(c) && FilesWritten(files)
    ensures FilesRun(c, DiskFiles(c, Plains(files))).0 == DeliveredAll(files)
    ensures FilesRun(c, DiskFiles(c, Plains(files))).1 == Eof <==> AllReadable(files)
    ensures AllReadable(files) ==> DeliveredAll(files) == ReceivedOf(Flatten(files))
    decreases |files|
  {
    if files == [] {
      NoFiles(c);
    } else {
      PlainsAre(files);
      FlattenIs(files);
      ReadableIs(files);
      hide *;
      DiskFilesAre(c, Plains(files));
      ItemsRun(files[0]);
      ItemsDecode(files[0]);
      FileRuns(c, BytesOf(files[0]));
      FilesRunIs(c, DiskFiles(c, Plains(files)));
      FilesReadBack(c, files[1..]);
      ReceivedAppend(files[0], Flatten(files[1..]));
      Seqs.Nil(Delivered(files[0]));
    }
  }

  lemma ReadableIs(files: seq<seq<Item>>)
    requires files != []
    ensures AllReadable(files) <==> NothingBehindOrphan(files[0]) && AllReadable(files[1..])
    ensures DeliveredAll(files)
         == Delivered(files[0]) + if NothingBehindOrphan(files[0]) then DeliveredAll(files[1..]) else []
  {
    hide NothingBehindOrphan;
    assert files == [files[0]] + files[1..];
  }

  lemma PlainsAre(files: seq<seq<Item>>)
    requires FilesWritten(files) && files != []
    ensures AllWritten(files[0]) && FilesWritten(files[1..])
    ensures Plains(files) != [] && Plains(files)[0] == BytesOf(files[0]) && Plains(files)[1..] == Plains(files[1..])
  {
    hide AllWritten, BytesOf;
    assert files[0] in files;
  }

  lemma DiskFilesAre(c: Codec, plains: seq<seq<byte>>)
    requires plains != []
    ensures var files := DiskFiles(c, plains);
            files != [] && files[0] == FileBytes(c, plains[0]) && files[1..] == DiskFiles(c, plains[1..])
  {
  }

  /** The rotated files and the current one are those of `parts` and `last`. */
  lemma {:induction false} ContentsAre(listing: seq<Entry>, parts: seq<seq<Item>>, last: seq<Item>)
    requires Holds(listing, parts) && AllWritten(last)
    ensures FilesWritten(parts + [last]) && Contents(listing) + [BytesOf(last)] == Plains(parts + [last])
    decreases |listing|
  {
    hide AllWritten, BytesOf;
    if listing == [] {
      assert parts + [last] == [last] && [last][1..] == [];
    } else {
      HoldsRest(listing, parts);
      ContentsAre(listing[1..], parts[1..], last);
      assert (parts + [last])[1..] == parts[1..] + [last];
      Seqs.Assoc([listing[0].plain], Contents(listing[1..]), [BytesOf(last)]);
    }
  }

  // ---------------------------------------------------------------------------------------------
  // The spool
  // ---------------------------------------------------------------------------------------------

  /** The rotated files hold `parts`, and these and `tail` are all of the history that was not pruned. */
  ghost predicate FiledAs(
    listing: seq<Entry>, parts: seq<seq<Item>>, history: seq<Item>, pruned: nat, tail: seq<Item>)
  {
    && Sorted(listing) && Holds(listing, parts)
    && pruned <= |history| && history[pruned..] == Flatten(parts) + tail
  }

  /** An encoder has written what `xs` left, and has counted the frames. */
  ghost predicate Counted(xs: seq<Item>, written: seq<byte>, encoded: nat) {
    AllWritten(xs) && written == BytesOf(xs) && encoded == Reported(xs)
  }

  lemma FiledMore(
    listing: seq<Entry>, parts: seq<seq<Item>>, history: seq<Item>, pruned: nat, before: seq<Item>,
    since: seq<Item>, x: Item)
    requires FiledAs(listing, parts, history, pruned, before + since)
    ensures FiledAs(listing, parts, history + [x], pruned, before + (since + [x]))
  {
    hide Holds, Flatten, Sorted;
    Seqs.Assoc(before, since, [x]);
    Seqs.Assoc(Flatten(parts), before + since, [x]);
    assert (history + [x])[pruned..] == history[pruned..] + [x];
  }

  lemma CountedMore(xs: seq<Item>, written: seq<byte>, encoded: nat, x: Item)
    requires Counted(xs, written, encoded) && Written(x)
    ensures Counted(xs + [x], written + ItemBytes(x), encoded + Count(x))
  {
    hide AllWritten, BytesOf, Count, ItemBytes, Written;
    BytesSnoc(xs, x);
    ReportedSnoc(xs, x);
  }

  /** What `Encode` writes for `m` and adds to the count. */
  lemma CountedEncode(xs: seq<Item>, written: seq<byte>, encoded: nat, m: Message)
    requires Counted(xs, written, encoded) && MessageOk(m) && (MessageBytes(m).Ok? ==> Sendable(m))
    requires Layout.MessageSize(m) < TWO_63
    ensures var size := Layout.MessageSize(m);
            var head := [PLUS] + Varint.Encode(size);
            match MessageBytes(m)
            case Ok(body) => Counted(xs + [Sent(m)], written + head + body, encoded + size + 5)
            case Fail(_) => Counted(xs + [Orphan(size)], written + head, encoded)
  {
    hide Counted, MessageBytes, MessageOk, Sendable, Varint.Encode, Layout.MessageSize, Frame;
    MarshalTo.Marshals(m);
    Stream.SizePositive(m);
    CountedMore(xs, written, encoded, if MessageBytes(m).Ok? then Sent(m) else Orphan(Layout.MessageSize(m)));
    if MessageBytes(m).Ok? {
      CountOfIs(m);
      Seqs.Assoc(written, [PLUS] + Varint.Encode(Layout.MessageSize(m)), MessageBytes(m).value);
    }
  }

  lemma CountedNone()
    ensures Counted([], [], 0)
  {
  }

  /** The chunk size of the snappy writer. */
  const CHUNK := 10240

  class Spool {
    const perFileSize: nat
    const maxFiles: nat

    /** The rotated files, and what the current file held when it was opened. */
    var listing: seq<Entry>
    var base: seq<byte>
    var startSize: nat

    /** The encoder: what it has counted, and the writer behind it. */
    var encoded: nat
    var ew: Stream.SnappyWriter

    /** What all messages ever received have left, how many of them were pruned, and where the others are: in the
        rotated files, in the current file when it was opened, and in it since then. */
    ghost var history: seq<Item>
    ghost var pruned: nat
    ghost var parts: seq<seq<Item>>
    ghost var before: seq<Item>
    ghost var since: seq<Item>

    /** The rotated files and `tail` together hold everything that was not pruned. */
    ghost predicate Filed(tail: seq<Item>)
      reads `listing, `history, `pruned, `parts
    {
      FiledAs(listing, parts, history, pruned, tail)
    }

    /** The current file and its encoder. */
    ghost predicate Open()
      reads `base, `startSize, `encoded, `ew, `before, `since, ew
    {
      && AllWritten(before) && base == BytesOf(before) && (startSize == 0 ==> before == [])
      && Counted(since, ew.Written(), encoded)
    }

    ghost predicate Valid()
      reads this, ew
    {
      Filed(before + since) && Open() && (encoded > 0 ==> startSize + encoded < perFileSize)
    }

    /** What the current file holds on disk. */
    function OnDisk(): seq<byte>
      reads this, ew
    {
      base + ew.forwarded
    }

    /** A new spool in an empty directory. */
    constructor (perFileSize: nat, maxFiles: nat)
      ensures Valid() && fresh(ew) && this.perFileSize == perFileSize && this.maxFiles == maxFiles
      ensures history == [] && pruned == 0 && listing == [] && startSize == 0
    {
      this.perFileSize, this.maxFiles := perFileSize, maxFiles;
      listing, base, startSize, encoded := [], [], 0, 0;
      history, pruned, parts, before, since := [], 0, [], [], [];
      ew := new Stream.SnappyWriter(CHUNK);
    }

    /** `pruneOldFiles`: at most one file goes, the oldest. */
    method PruneOldFiles(ghost tail: seq<Item>)
      requires Filed(tail)
      modifies `listing, `parts, `pruned
      ensures Filed(tail)
      ensures listing == if |old(listing)| > maxFiles then old(listing)[1..] else old(listing)
      ensures |old(listing)| <= maxFiles ==> pruned == old(pruned)
    {
      hide AllWritten, BytesOf, Holds, Flatten;
      var oldest: Option<nat> := None;
      var count := 0;
      for i := 0 to |listing|
        invariant count == i
        invariant oldest == if i == 0 then None else Some(listing[0].name)
      {
        count := count + 1;
        if oldest.None? || listing[i].name < oldest.value {
          oldest := Some(listing[i].name);
        }
      }
      if count <= maxFiles {
        return;
      }
      if oldest.Some? {
        Remove(oldest.value, tail);
      }
    }

    /** `os.Remove` of the first file of the listing. */
    method Remove(name: nat, ghost tail: seq<Item>)
      requires Filed(tail) && listing != [] && name == listing[0].name
      modifies `listing, `parts, `pruned
      ensures Filed(tail) && listing == old(listing)[1..]
    {
      HoldsRest(listing, parts);
      FlattenIs(parts);
      hide AllWritten, BytesOf, Holds, Flatten;
      Seqs.Assoc(parts[0], Flatten(parts[1..]), tail);
      Seqs.DropAppend(history, pruned, parts[0], Flatten(parts[1..]) + tail);
      pruned := pruned + |parts[0]|;
      listing, parts := listing[1..], parts[1..];
    }

    /** `os.Rename(sf.current, newName)`. */
    method MoveAway(now: nat, plain: seq<byte>, ghost tail: seq<Item>)
      requires Filed(tail) && Newer(listing, now) && AllWritten(tail) && plain == BytesOf(tail)
      modifies `listing, `parts
      ensures Filed([]) && listing == old(listing) + [Entry(now, plain)]
    {
      InsertNewest(listing, Entry(now, plain));
      FlattenSnoc(parts, tail);
      HoldsMore(listing, parts, Entry(now, plain), tail);
      hide AllWritten, BytesOf, Holds, Flatten, Insert;
      listing := Insert(listing, Entry(now, plain));
      parts := parts + [tail];
      Seqs.Nil(Flatten(parts));
    }

    /** `openCurrent` on a file that holds `plain`, `size` bytes of it on disk. */
    method OpenCurrent(plain: seq<byte>, size: nat, ghost tail: seq<Item>)
      requires AllWritten(tail) && plain == BytesOf(tail) && (size == 0 ==> tail == [])
      modifies `base, `startSize, `encoded, `ew, `before, `since
      ensures Open() && startSize == size && before == tail && since == [] && fresh(ew)
    {
      hide BytesOf, AllWritten, Reported, Counted;
      CountedNone();
      base, startSize, encoded, before, since := plain, size, 0, tail, [];
      ew := new Stream.SnappyWriter(CHUNK);
      assert ew.Written() == [];
    }

    /** `Flush`: everything received for the current file is on disk. */
    method Flush()
      requires Open()
      modifies ew
      ensures Open() && OnDisk() == BytesOf(before) + BytesOf(since)
    {
      hide BytesOf, AllWritten, Reported;
      var ok := ew.Flush(Stream.Works);
    }

    /** Moves the current file away and prunes. */
    method Shelve(now: nat, plain: seq<byte>, ghost tail: seq<Item>)
      requires Filed(tail) && Newer(listing, now) && AllWritten(tail) && plain == BytesOf(tail)
      modifies `listing, `parts, `pruned
      ensures Filed([])
      ensures |listing| == if |old(listing)| < maxFiles then |old(listing)| + 1 else |old(listing)|
      ensures |old(listing)| < maxFiles ==> pruned == old(pruned)
      ensures Newer(listing, now + 1)
    {
      hide Filed, AllWritten, BytesOf;
      MoveAway(now, plain, tail);
      PruneOldFiles([]);
    }

    /** `Rotate`, at time `now`. */
    method Rotate(now: nat)
      requires Filed(before + since) && Open() && Newer(listing, now)
      modifies this, ew
      ensures Valid() && fresh(ew) && history == old(history)
      ensures before == [] && since == [] && startSize == 0
      ensures |listing| == if |old(listing)| < maxFiles then |old(listing)| + 1 else |old(listing)|
      ensures |old(listing)| < maxFiles ==> pruned == old(pruned)
      ensures Newer(listing, now + 1)
    {
      ghost var all := before + since;
      OpenIs();
      hide *;
      BytesAppend(before, since);
      BytesOfNone();
      Flush();
      Shelve(now, OnDisk(), all);
      OpenCurrent([], 0, []);
      BecomesValid([]);
    }

    /** `Encoder.Encode` into the snappy writer, and the count of the stream encoder.  The head of the frame is
        written before the message is refused. */
    method Encode(m: Message) returns (ok: bool)
      requires MessageOk(m)
      modifies `encoded, ew
      ensures match MessageBytes(m)
              case Ok(body) =>
                && ok && encoded == old(encoded) + Layout.MessageSize(m) + 5
                && ew.Written() == old(ew.Written()) + ([PLUS] + Varint.Encode(Layout.MessageSize(m))) + body
              case Fail(_) =>
                && !ok && encoded == old(encoded)
                && ew.Written() == old(ew.Written()) + ([PLUS] + Varint.Encode(Layout.MessageSize(m)))
    {
      hide MessageBytes, MessageOk, Varint.Encode, Layout.MessageSize;
      var size := Layout.SizeMessage(m);
      var n, full := ew.Write([PLUS] + Varint.Encode(size), Stream.Works);
      var body := MarshalTo.MarshalNew(m);
      if body.Fail? {
        return false;
      }
      n, full := ew.Write(body.value, Stream.Works);
      encoded := encoded + size + 5;
      return true;
    }

    /** The same with the history. */
    method Take(m: Message) returns (ok: bool)
      requires Filed(before + since) && Open() && MessageOk(m) && (MessageBytes(m).Ok? ==> Sendable(m))
      requires Layout.MessageSize(m) < TWO_63
      modifies `encoded, ew, `since, `history
      ensures ok <==> MessageBytes(m).Ok?
      ensures Filed(before + since) && Open()
      ensures var x := if ok then Sent(m) else Orphan(Layout.MessageSize(m));
              since == old(since) + [x] && history == old(history) + [x]
      ensures !ok ==> encoded == old(encoded)
    {
      hide AllWritten, BytesOf, Reported, MessageBytes, MessageOk, Sendable, FiledAs, Counted, Varint.Encode,
           Layout.MessageSize, Frame;
      ghost var x := if MessageBytes(m).Ok? then Sent(m) else Orphan(Layout.MessageSize(m));
      FiledMore(listing, parts, history, pruned, before, since, x);
      CountedEncode(since, ew.Written(), encoded, m);
      ok := Encode(m);
      since, history := since + [x], history + [x];
    }

    /** `Receive`, at time `now`. */
    method Receive(m: Message, now: nat) returns (ok: bool)
      requires Valid() && MessageOk(m) && (MessageBytes(m).Ok? ==> Sendable(m)) && Layout.MessageSize(m) < TWO_63
      requires Newer(listing, now)
      modifies this, ew
      ensures ok <==> MessageBytes(m).Ok?
      ensures Valid() && (ew == old(ew) || fresh(ew))
      ensures history == old(history) + [if ok then Sent(m) else Orphan(Layout.MessageSize(m))]
      ensures startSize == old(startSize) || startSize == 0
      ensures |old(listing)| <= maxFiles ==> |listing| <= maxFiles
      ensures |old(listing)| < maxFiles ==> pruned == old(pruned)
      ensures Newer(listing, now + 1)
      ensures !ok ==> ew == old(ew) && listing == old(listing) && base == old(base)
    {
      hide Filed, AllWritten, BytesOf, Reported, MessageBytes, Sendable, MessageOk, Layout.MessageSize, Varint.Encode,
           Counted;
      ok := Take(m);
      if !ok {
        return false;
      }
      if startSize + encoded >= perFileSize {
        Rotate(now);
      }
    }

    /** `Close`, and `NewSpool` on the same directory; the current file then has `size` bytes on disk, at least
        those of the stream header. */
    method Reopen(size: nat)
      requires Valid() && size > 0
      modifies this, ew
      ensures Valid() && fresh(ew) && history == old(history) && startSize == size
      ensures listing == if |old(listing)| > maxFiles then old(listing)[1..] else old(listing)
      ensures |old(listing)| <= maxFiles ==> pruned == old(pruned)
    {
      ghost var all := before + since;
      OpenIs();
      hide *;
      BytesAppend(before, since);
      Flush();
      var plain := OnDisk();
      PruneOldFiles(all);
      OpenCurrent(plain, size, all);
      BecomesValid(all);
    }

    lemma OpenIs()
      requires Open()
      ensures AllWritten(before) && AllWritten(since)
      ensures Valid() ==> Filed(before + since)
    {
    }

    lemma BecomesValid(all: seq<Item>)
      requires Filed(all) && Open() && before == all && since == []
      ensures Valid()
    {
      BytesOfNone();
      hide Filed, AllWritten, BytesOf, Reported;
      Seqs.Nil(all);
    }

    /** The files that `Generator` opens: the rotated ones by name, then the current one. */
    function Files(c: Codec): seq<seq<byte>>
      reads this, ew
    {
      DiskFiles(c, Contents(listing) + [OnDisk()])
    }

    /** What was written into each file, the current one last. */
    ghost function Layers(): seq<seq<Item>>
      reads `parts, `before, `since
    {
      parts + [before + since]
    }

    /** A flushed spool holds a suffix of everything it ever received.  The generator delivers it up to the first
        refused message with something behind it in its file, and it delivers all accepted messages of it and then
        ends, if and only if there is none. */
    lemma ReadsBack(c: Codec)
      requires Inverts(c) && Valid() && ew.buf == []
      ensures pruned <= |history| && Flatten(Layers()) == history[pruned..]
      ensures FilesRun(c, Files(c)).0 == DeliveredAll(Layers())
      ensures FilesRun(c, Files(c)).1 == Eof <==> AllReadable(Layers())
      ensures AllReadable(Layers()) ==> FilesRun(c, Files(c)).0 == ReceivedOf(history[pruned..])
    {
      hide FilesRun, DiskFiles, Inverts, AllReadable, DeliveredAll, ReceivedOf, Plains, Reported, Sorted, Holds;
      BytesAppend(before, since);
      assert ew.forwarded == ew.Written() by { Seqs.Nil(ew.forwarded); }
      ContentsAre(listing, parts, before + since);
      FlattenSnoc(parts, before + since);
      FilesReadBack(c, Layers());
    }

    /** In a file that began empty, the frames so far are below the limit, so that only the last one can
        reach beyond it, if each message is below 2^28 bytes.  What refused messages left is not counted. */
    lemma FreshFileIsBounded()
      requires Valid() && startSize == 0 && perFileSize > 0
      requires AllSmall(since)
      ensures |base + ew.Written()| < perFileSize + Uncounted(since)
    {
      ReportBounds(since);
      BytesOfNone();
      hide AllWritten, BytesOf, Reported, Sendable, MessageBytes, Filed, Uncounted;
    }
  }

  lemma FlattenIs(parts: seq<seq<Item>>)
    ensures parts != [] ==> Flatten(parts) == parts[0] + Flatten(parts[1..])
  {
  }

  lemma HoldsMore(listing: seq<Entry>, parts: seq<seq<Item>>, e: Entry, p: seq<Item>)
    requires Holds(listing, parts) && AllWritten(p) && e.plain == BytesOf(p)
    ensures Holds(listing + [e], parts + [p])
  {
    hide AllWritten, BytesOf;
  }

  lemma ReportedSnoc(xs: seq<Item>, x: Item)
    requires AllWritten(xs) && Written(x)
    ensures AllWritten(xs + [x]) && Reported(xs + [x]) == Reported(xs) + Count(x)
  {
    assert (xs + [x])[..|xs|] == xs && AllWritten(xs + [x]);
    hide Written, Count;
  }

  lemma CountOfIs(m: Message)
    requires Sendable(m)
    ensures MessageOk(m) && MessageBytes(m).Ok? && Count(Sent(m)) == |MessageBytes(m).value| + 5
    ensures Frame(m) == [PLUS] + Varint.Encode(|MessageBytes(m).value|) + MessageBytes(m).value
  {
    FrameIs(m);
    hide Sendable, MessageBytes, MessageOk, Frame;
  }

  lemma FrameCovered(m: Message)
    requires Sendable(m) && |MessageBytes(m).value| < 0x1000_0000
    ensures |Frame(m)| <= CountOf(m)
  {
    ReportCovers(MessageBytes(m).value);
    hide Sendable, MessageBytes, Framed;
  }

  ghost predicate Small(x: Item) {
    Written(x) && (x.Sent? ==> |MessageBytes(x.m).value| < 0x1000_0000)
  }

  ghost predicate AllSmall(xs: seq<Item>) {
    forall x | x in xs :: Small(x)
  }

  /** The bytes that refused messages have left. */
  ghost function Uncounted(xs: seq<Item>): nat
    requires AllWritten(xs)
  {
    if xs == [] then 0
    else Uncounted(xs[..|xs| - 1]) + if xs[|xs| - 1].Orphan? then |ItemBytes(xs[|xs| - 1])| else 0
  }

  lemma LastSmall(xs: seq<Item>)
    requires AllSmall(xs)
    ensures AllWritten(xs)
    ensures xs != [] ==> AllSmall(xs[..|xs| - 1]) && Small(xs[|xs| - 1]) && xs == xs[..|xs| - 1] + [xs[|xs| - 1]]
  {
    hide Written, MessageBytes;
    forall x | x in xs ensures Written(x) { assert Small(x); }
  }

  /** The reported count covers the frames. */
  lemma {:induction false} ReportBounds(xs: seq<Item>)
    requires AllSmall(xs)
    ensures AllWritten(xs) && |BytesOf(xs)| <= Reported(xs) + Uncounted(xs)
    decreases |xs|
  {
    LastSmall(xs);
    if xs != [] {
      var rest, x := xs[..|xs| - 1], xs[|xs| - 1];
      ReportBounds(rest);
      BytesSnoc(rest, x);
      if x.Sent? { FrameCovered(x.m); }
      hide AllWritten, BytesOf, CountOf, Frame, Sendable, MessageBytes, Varint.Encode;
    }
  }

  lemma BytesOfNone()
    ensures AllWritten([]) && BytesOf([]) == [] && Reported([]) == 0
  {
  }

  lemma {:induction false} BytesAppend(a: seq<Item>, b: seq<Item>)
    requires AllWritten(a) && AllWritten(b)
    ensures AllWritten(a + b) && BytesOf(a + b) == BytesOf(a) + BytesOf(b)
    decreases |a|
  {
    hide Written, ItemBytes;
    if a == [] {
      assert a + b == b;
    } else {
      BytesAppend(a[1..], b);
      assert (a + b)[1..] == a[1..] + b;
      Seqs.Assoc(ItemBytes(a[0]), BytesOf(a[1..]), BytesOf(b));
    }
  }

  // ---------------------------------------------------------------------------------------------
  // A refused message
  // ---------------------------------------------------------------------------------------------

  /** One refused message with anything behind it in its file: reading stops there with an error, and whatever
      follows, in this file and in all later ones, is not read. */
  lemma RefusalEndsReading(c: Codec, file: seq<Item>, later: seq<seq<byte>>)
    requires Inverts(c) && AllWritten(file) && !NothingBehindOrphan(file)
    ensures var r := FilesRun(c, [FileBytes(c, BytesOf(file))] + later);
            r.0 == Delivered(file) && r.1 != Eof
  {
    hide *;
    ItemsRun(file);
    ItemsDecode(file);
    FileRuns(c, BytesOf(file));
    FilesRunIs(c, [FileBytes(c, BytesOf(file))] + later);
  }

  // ---------------------------------------------------------------------------------------------
  // The generator
  // ---------------------------------------------------------------------------------------------

  /** `SpoolGenerator`. */
  class SpoolGenerator {
    const codec: Codec
    const files: seq<seq<byte>>
    var closed: bool
    var current: nat
    var dec: Stream.StreamDecoder

    ghost predicate Valid()
      reads this, dec
    {
      dec.codec == codec && dec.Valid() && (closed || current < |files|)
    }

    /** What further calls will deliver. */
    ghost function Upcoming(): (seq<Message>, StreamError)
      reads this, dec, dec.r, dec.dec, dec.dec.r
      requires Valid()
    {
      if closed then ([], Eof) else Joined(dec.Upcoming(), FilesRun(codec, files[current + 1..]))
    }

    constructor (codec: Codec, files: seq<seq<byte>>)
      requires files != []
      ensures Valid() && fresh(dec) && fresh(dec.r) && fresh(dec.dec) && fresh(dec.dec.r)
      ensures Upcoming() == FilesRun(codec, files)
    {
      this.codec, this.files, closed, current := codec, files, false, 0;
      var r := new Stream.Reader(files[0]);
      dec := new Stream.StreamDecoder(r, codec);
      new;
      FilesRunIs(codec, files);
    }

    /** `Generate`: at the end of a file the next one is taken up; after the last one the generator stays
        closed. */
    method Generate(pooled: array<byte>) returns (m: Outcome<Message>)
      requires Valid() && pooled.Length >= Stream.POOLED
      modifies this, dec, dec.r, dec.dec, dec.dec.r, pooled
      ensures Valid()
      ensures m.Got? ==> old(Upcoming().0) == [m.value] + Upcoming().0 && Upcoming().1 == old(Upcoming().1)
      ensures m.Stop? ==> old(Upcoming()) == ([], m.error)
      ensures m == Stop(Eof) ==> closed
    {
      hide StreamRun, FilesRun, DecodeRun, DecoderRun;
      if closed {
        return Stop(Eof);
      }
      ghost var all := Upcoming();
      while true
        invariant Valid() && !closed && Upcoming() == all
        invariant dec == old(dec) || (fresh(dec) && fresh(dec.r))
        invariant dec.dec == old(dec.dec) || (fresh(dec.dec) && fresh(dec.dec.r))
        decreases |files| - current
      {
        ghost var before, later := dec.Upcoming(), FilesRun(codec, files[current + 1..]);
        m := dec.Generate(pooled);
        if m.Got? {
          Seqs.Assoc([m.value], dec.Upcoming().0, later.0);
          return;
        }
        Seqs.Nil(later.0);
        if m.error != Eof {
          return;
        }
        current := current + 1;
        if current == |files| {
          assert files[current..] == [];
          NoFiles(codec);
          closed := true;
          return;
        }
        FilesRunIs(codec, files[current..]);
        assert files[current..][1..] == files[current + 1..];
        var r := new Stream.Reader(files[current]);
        dec := new Stream.StreamDecoder(r, codec);
      }
    }
  }

  /** The rest of one file, and then the later ones if it comes to its end. */
  function Joined(r: (seq<Message>, StreamError), later: (seq<Message>, StreamError)): (seq<Message>, StreamError) {
    if r.1 != Eof then r else (r.0 + later.0, later.1)
  }
}
