/** The monitor of several files: lines arrive interleaved, and for each path the offset behind its last
    delivered line is remembered for the next start. */
module Monitor {

  import opened Wrappers
  import opened Bits
  import opened Lines
  import Seqs

  type Path = string

  /** A file on disk, with what identifies it. */
  datatype OnDisk = OnDisk(id: nat, content: seq<byte>)

  /** An entry of the offset database. */
  datatype Entry = Entry(offset: nat, id: nat)

  /** The files by their clean names, and `cleanPath`, which finds the clean name of a path.  A path opens the
      file of its clean name, and the offset database knows files by clean names. */
  datatype Disk = Disk(files: map<Path, OnDisk>, clean: Path -> Path)

  /** `Entry.Valid`: the same file, and not shorter than the offset. */
  predicate IsValid(e: Entry, files: map<Path, OnDisk>, name: Path) {
    name in files && files[name].id == e.id && e.offset <= |files[name].content|
  }

  /** Where reading of a path starts. */
  function StartOffset(db: Option<map<Path, Entry>>, disk: Disk, path: Path): nat {
    var name := disk.clean(path);
    if db.Some? && name in db.value && IsValid(db.value[name], disk.files, name) then db.value[name].offset else 0
  }

  function ContentOf(disk: Disk, path: Path): seq<byte> {
    if disk.clean(path) in disk.files then disk.files[disk.clean(path)].content else []
  }

  /** What `FlushOffsets` leaves in the database, whatever the order in which it goes over the paths: under the
      name of a file that exists, the offset of one of the paths with this name; other entries as before. */
  ghost predicate Stored(
    db: map<Path, Entry>, before: map<Path, Entry>, offsets: map<Path, nat>, done: set<Path>, disk: Disk)
  {
    && (forall p | p in done && p in offsets && disk.clean(p) in disk.files ::
          disk.clean(p) in db && Serves(db, offsets, done, disk, disk.clean(p)))
    && (forall name | name in db && name !in before :: Serves(db, offsets, done, disk, name))
    && (forall name | name in before ::
          name in db && (db[name] == before[name] || Serves(db, offsets, done, disk, name)))
  }

  /** The entry of file `name` holds the offset of one of its paths. */
  ghost predicate Serves(
    db: map<Path, Entry>, offsets: map<Path, nat>, done: set<Path>, disk: Disk, name: Path)
  {
    && name in db && name in disk.files
    && exists q | q in done && q in offsets ::
         disk.clean(q) == name && db[name] == Entry(offsets[q], disk.files[name].id)
  }

  /** The lines of one reader among all that were received. */
  function ByReader(received: seq<(nat, Line)>, i: nat): seq<Line> {
    if received == [] then []
    else ByReader(received[..|received| - 1], i)
         + if received[|received| - 1].0 == i then [received[|received| - 1].1] else []
  }

  lemma ByReaderSnoc(received: seq<(nat, Line)>, i: nat, line: Line, other: nat)
    ensures ByReader(received + [(i, line)], other) == ByReader(received, other) + if i == other then [line] else []
  {
    assert (received + [(i, line)])[..|received|] == received;
  }

  /** The goroutine of one argument: the path, and what it will still hand over. */
  datatype Reader = Reader(path: Path, queue: seq<Line>)

  /** What a path held when the session began, and the offset it was read from. */
  datatype Source = Source(content: seq<byte>, start: nat)

  /** The lines a reader has delivered are the first `count` of its source, and it may hand over the next ones. */
  ghost predicate Tracks(from: Source, count: nat, queue: seq<Line>, lines: seq<Line>) {
    var all := LinesFrom(from.content, from.start);
    && from.start <= |from.content|
    && count <= |all| && lines == all[..count]
    && queue <= all[count..]
  }

  lemma TracksStart(content: seq<byte>, start: nat, queue: seq<Line>)
    requires start <= |content| && queue <= LinesFrom(content, start)
    ensures Tracks(Source(content, start), 0, queue, [])
  {
    hide LinesFrom;
  }

  lemma TracksNext(from: Source, count: nat, queue: seq<Line>, lines: seq<Line>)
    requires Tracks(from, count, queue, lines) && queue != []
    ensures Tracks(from, count + 1, queue[1..], lines + [queue[0]])
    ensures queue[0].Next() == Boundary(from.content, from.start, count + 1)
  {
    var all := LinesFrom(from.content, from.start);
    assert queue[0] == all[count..][0] == all[count];
    NextIsBoundary(from.content, from.start, count);
    hide LinesFrom, Boundary;
    assert all[..count + 1] == all[..count] + [all[count]];
    assert all[count..][1..] == all[count + 1..];
    assert queue[1..] <= all[count..][1..];
  }

  /** The remembered offset of this source is behind the lines of a reader that has delivered `count`. */
  ghost predicate IsBehind(from: Source, count: nat, offset: nat) {
    offset == Boundary(from.content, from.start, count)
  }

  /** A session as it stands: the sources, and the readers with the numbers of lines they have delivered. */
  datatype Standing = Standing(
    sources: map<Path, Source>, readers: seq<Reader>, counts: seq<nat>, offsets: map<Path, nat>,
    received: seq<(nat, Line)>)
  {
    /** Reader `i` has delivered up to the offset of its path. */
    ghost predicate Leads(i: nat) {
      && i < |readers| && i < |counts| && readers[i].path in sources && readers[i].path in offsets
      && IsBehind(sources[readers[i].path], counts[i], offsets[readers[i].path])
    }

    /** Every reader tracks its source, and every offset is behind the lines of a reader of its path. */
    ghost predicate Sound() {
      && sources.Keys == offsets.Keys && |counts| == |readers|
      && (forall i | 0 <= i < |readers| :: readers[i].path in sources
            && Tracks(sources[readers[i].path], counts[i], readers[i].queue, ByReader(received, i)))
      && forall p | p in offsets :: exists i: nat :: Leads(i) && readers[i].path == p
    }

    /** One more reader, of a path that nobody has read from yet. */
    ghost function Watching(path: Path, queue: seq<Line>, from: Source): Standing {
      Standing(sources[path := from], readers + [Reader(path, queue)], counts + [0], offsets[path := from.start],
               received)
    }

    ghost function Delivering(i: nat): Standing
      requires Sound() && i < |readers| && readers[i].queue != []
    {
      var line := readers[i].queue[0];
      Standing(sources, readers[i := Reader(readers[i].path, readers[i].queue[1..])], counts[i := counts[i] + 1],
               offsets[readers[i].path := line.Next()], received + [(i, line)])
    }
  }

  /** Opening a path, for the first time or once more. */
  lemma WatchingSound(s: Standing, path: Path, queue: seq<Line>, from: Source)
    requires s.Sound() && s.received == [] && Tracks(from, 0, queue, [])
    requires path in s.sources ==> s.sources[path] == from
    ensures s.Watching(path, queue, from).Sound()
  {
    hide Tracks;
    var t := s.Watching(path, queue, from);
    assert t.Leads(|s.readers|);
    forall p | p in t.offsets && p != path
      ensures exists i: nat :: t.Leads(i) && t.readers[i].path == p
    {
      var i: nat :| s.Leads(i) && s.readers[i].path == p;
      assert t.Leads(i);
    }
  }

  /** One line moves from the queue of its reader to those received. */
  lemma DeliveringSound(s: Standing, i: nat)
    requires s.Sound() && i < |s.readers| && s.readers[i].queue != []
    ensures s.Delivering(i).Sound() && s.Delivering(i).Leads(i)
  {
    hide Tracks, ByReader, IsBehind;
    var t, path, line := s.Delivering(i), s.readers[i].path, s.readers[i].queue[0];
    TracksNext(s.sources[path], s.counts[i], s.readers[i].queue, ByReader(s.received, i));
    BehindNext(s.sources[path], s.counts[i] + 1, line);
    assert t.Leads(i);
    forall k: nat | k < |s.readers|
      ensures Tracks(t.sources[t.readers[k].path], t.counts[k], t.readers[k].queue, ByReader(t.received, k))
    {
      ByReaderSnoc(s.received, i, line, k);
      Seqs.Nil(ByReader(s.received, k));
    }
    forall p | p in t.offsets && p != path
      ensures exists k: nat :: t.Leads(k) && t.readers[k].path == p
    {
      var k: nat :| s.Leads(k) && s.readers[k].path == p;
      assert t.Leads(k);
    }
  }

  /** Nothing is left to hand over. */
  function Closed(readers: seq<Reader>): (r: seq<Reader>)
    ensures SamePaths(readers, r) && forall i | 0 <= i < |r| :: r[i].queue == []
  {
    seq(|readers|, i requires 0 <= i < |readers| => Reader(readers[i].path, []))
  }

  lemma ClosingSound(s: Standing)
    requires s.Sound()
    ensures s.(readers := Closed(s.readers)).Sound()
  {
    hide ByReader, IsBehind;
    var t := s.(readers := Closed(s.readers));
    forall p | p in t.offsets
      ensures exists i: nat :: t.Leads(i) && t.readers[i].path == p
    {
      var i: nat :| s.Leads(i) && s.readers[i].path == p;
      assert t.Leads(i);
    }
  }

  lemma BehindNext(from: Source, count: nat, line: Line)
    requires line.Next() == Boundary(from.content, from.start, count)
    ensures IsBehind(from, count, line.Next())
  {
  }

  lemma NoneSound(s: Standing)
    requires s == Standing(map[], [], [], map[], [])
    ensures s.Sound()
  {
  }

  lemma StartsInside(db: Option<map<Path, Entry>>, disk: Disk, path: Path)
    ensures StartOffset(db, disk, path) <= |ContentOf(disk, path)|
  {
  }

  lemma TracksCounts(from: Source, count: nat, queue: seq<Line>, lines: seq<Line>)
    requires Tracks(from, count, queue, lines)
    ensures |lines| == count
  {
  }

  /** A start on the grown source at an offset behind the lines that were delivered. */
  lemma ResumesBehind(from: Source, count: nat, offset: nat, queue: seq<Line>, lines: seq<Line>, more: seq<byte>)
    requires Tracks(from, count, queue, lines) && IsBehind(from, count, offset)
    ensures offset <= |from.content|
    ensures lines + LinesFrom(from.content + more, offset) == LinesFrom(from.content + more, from.start)
  {
    RestartDelivers(from.content, more, from.start, count);
    BoundaryInside(from.content, from.start, count);
    hide LinesFrom, Boundary;
  }

  function Zeros(n: nat): seq<nat> {
    seq(n, _ => 0)
  }

  predicate SamePaths(a: seq<Reader>, b: seq<Reader>) {
    |a| == |b| && forall i | 0 <= i < |a| :: a[i].path == b[i].path
  }

  class Monitor {
    var db: Option<map<Path, Entry>>
    var offsets: map<Path, nat>
    var readers: seq<Reader>
    ghost var sources: map<Path, Source>
    ghost var counts: seq<nat>
    ghost var received: seq<(nat, Line)>

    ghost function Stands(): Standing
      reads this
    {
      Standing(sources, readers, counts, offsets, received)
    }

    ghost predicate Valid()
      reads this
    {
      Stands().Sound()
    }

    constructor (db: Option<map<Path, Entry>>)
      ensures Valid() && this.db == db && offsets == map[] && received == []
    {
      this.db, offsets, readers, sources, counts, received := db, map[], [], map[], [], [];
    }

    /** `OpenFiles` with `once` set: a reader for each argument, also for one that comes again. */
    method OpenFiles(args: seq<Path>, disk: Disk)
      modifies this
      ensures Valid() && received == [] && db == old(db) && counts == Zeros(|args|)
      ensures |readers| == |args| && forall i | 0 <= i < |args| :: readers[i].path == args[i]
      ensures forall p :: p in offsets <==> p in args
      ensures forall p | p in args :: sources[p] == Source(ContentOf(disk, p), StartOffset(db, disk, p))
    {
      hide Tracks, StartOffset, LinesFrom, Standing.Sound, Standing.Leads;
      offsets, readers, sources, counts, received := map[], [], map[], [], [];
      NoneSound(Stands());
      for i := 0 to |args|
        invariant Valid() && received == [] && db == old(db) && counts == Zeros(i)
        invariant |readers| == i && forall k | 0 <= k < i :: readers[k].path == args[k]
        invariant forall p :: p in offsets <==> p in args[..i]
        invariant sources.Keys == offsets.Keys
        invariant forall p | p in args[..i] :: sources[p] == Source(ContentOf(disk, p), StartOffset(db, disk, p))
      {
        var path := args[i];
        assert args[..i + 1] == args[..i] + [path];
        Open(path, disk);
      }
      assert args[..|args|] == args;
    }

    /** One round of `OpenFiles`. */
    method Open(path: Path, disk: Disk)
      requires Valid() && received == []
      requires path in sources ==> sources[path] == Source(ContentOf(disk, path), StartOffset(db, disk, path))
      modifies `offsets, `readers, `sources, `counts
      ensures Valid() && counts == old(counts) + [0] && offsets.Keys == old(offsets.Keys) + {path}
      ensures |readers| == |old(readers)| + 1 && readers[..|old(readers)|] == old(readers)
      ensures readers[|old(readers)|].path == path
      ensures sources == old(sources)[path := Source(ContentOf(disk, path), StartOffset(db, disk, path))]
    {
      hide Tracks, StartOffset, LinesFrom, Standing.Sound, Standing.Leads;
      var offset := StartOffset(db, disk, path);
      StartsInside(db, disk, path);
      var f := new File(ContentOf(disk, path), offset);
      var finished := f.ReadOnce();
      TracksStart(f.content, offset, f.lines);
      ghost var from := Source(f.content, offset);
      WatchingSound(Stands(), path, f.lines, from);
      sources, counts := sources[path := from], counts + [0];
      offsets, readers := offsets[path := offset], readers + [Reader(path, f.lines)];
    }

    /** `CloseFiles`: nothing more comes from the readers. */
    method CloseFiles()
      requires Valid()
      modifies `readers
      ensures Valid() && readers == Closed(old(readers))
    {
      hide Standing.Sound, Standing.Leads;
      ClosingSound(Stands());
      readers := Closed(readers);
    }

    /** One line that the receiver takes. */
    method Deliver(i: nat)
      requires Valid() && i < |readers| && readers[i].queue != []
      modifies `offsets, `readers, `counts, `received
      ensures Valid() && offsets.Keys == old(offsets.Keys) && SamePaths(old(readers), readers)
      ensures received == old(received) + [(i, old(readers)[i].queue[0])]
      ensures Stands().Leads(i)
    {
      hide Tracks, ByReader, Standing.Leads;
      DeliveringSound(Stands(), i);
      var r := readers[i];
      readers := readers[i := Reader(r.path, r.queue[1..])];
      received, counts := received + [(i, r.queue[0])], counts[i := counts[i] + 1];
      offsets := offsets[r.path := r.queue[0].Next()];
    }

    /** `Run`, with lines from the readers in the order of `schedule`, up to a shutdown or an error of the
        receiver.  A refused line is not counted as delivered. */
    method Run(schedule: seq<nat>) returns (failed: bool)
      requires Valid()
      modifies `offsets, `readers, `counts, `received
      ensures Valid() && offsets.Keys == old(offsets.Keys) && SamePaths(old(readers), readers)
      ensures old(received) <= received
    {
      hide Standing.Sound, Standing.Leads;
      for k := 0 to |schedule|
        invariant Valid() && offsets.Keys == old(offsets.Keys) && SamePaths(old(readers), readers)
        invariant old(received) <= received
      {
        var i := schedule[k];
        if i < |readers| && readers[i].queue != [] {
          var refused := *;
          if refused {
            CloseFiles();
            return true;
          }
          Deliver(i);
        }
      }
      CloseFiles();
      return false;
    }

    /** `FlushOffsets`; a path whose file is gone is not stored. */
    method FlushOffsets(disk: Disk)
      modifies `db
      ensures db.Some? == old(db).Some?
      ensures db.Some? ==> Stored(db.value, old(db).value, offsets, offsets.Keys, disk)
    {
      if db.None? {
        return;
      }
      var rest := offsets.Keys;
      var entries := db.value;
      ghost var before := entries;
      while rest != {}
        invariant rest <= offsets.Keys
        invariant Stored(entries, before, offsets, offsets.Keys - rest, disk)
        decreases |rest|
      {
        var path :| path in rest;
        var name := disk.clean(path);
        StoresOne(entries, before, offsets, offsets.Keys - rest, disk, path);
        assert offsets.Keys - rest + {path} == offsets.Keys - (rest - {path});
        if name in disk.files {
          entries := entries[name := Entry(offsets[path], disk.files[name].id)];
        }
        rest := rest - {path};
      }
      assert offsets.Keys - rest == offsets.Keys;
      db := Some(entries);
    }

    /** After a session whose offsets were stored, a start on the same file, grown by `more`: what reader `i`
        has delivered and what the next session delivers from its path are together all lines, each once and in
        order, exactly if the reader is as far as the one that leads.  The entry must be the one of this path;
        `Stored` promises it if no other path has the same clean name. */
    lemma ResumesWhereItStopped(db: map<Path, Entry>, disk: Disk, i: nat, more: seq<byte>)
      requires Valid() && i < |readers|
      requires var p := readers[i].path; var name := disk.clean(p);
               && name in db && name in disk.files && db[name] == Entry(offsets[p], disk.files[name].id)
               && disk.files[name].content == sources[p].content + more
      ensures var p := readers[i].path;
              var next := LinesFrom(ContentOf(disk, p), StartOffset(Some(db), disk, p));
              && StartOffset(Some(db), disk, p) == offsets[p]
              && (ByReader(received, i) + next == LinesFrom(ContentOf(disk, p), sources[p].start)
                  <==> Stands().Leads(i))
    {
      hide Tracks, IsBehind, LinesFrom, Boundary, ByReader;
      var p := readers[i].path;
      var from, offset := sources[p], offsets[p];
      var k: nat :| Stands().Leads(k) && readers[k].path == p;
      ResumesBehind(from, counts[k], offset, readers[k].queue, ByReader(received, k), more);
      TracksCounts(from, counts[k], readers[k].queue, ByReader(received, k));
      TracksCounts(from, counts[i], readers[i].queue, ByReader(received, i));
      if IsBehind(from, counts[i], offset) {
        ResumesBehind(from, counts[i], offset, readers[i].queue, ByReader(received, i), more);
      } else {
        assert |ByReader(received, i)| != |ByReader(received, k)|;
      }
    }

    /** A path that was given once has one reader, and that one leads. */
    lemma OnlyReaderLeads(i: nat)
      requires Valid() && i < |readers|
      requires forall k | 0 <= k < |readers| && readers[k].path == readers[i].path :: k == i
      ensures Stands().Leads(i)
    {
      hide Tracks, IsBehind;
      var k: nat :| Stands().Leads(k) && readers[k].path == readers[i].path;
      assert k == i;
    }
  }

  /** Storing the offset of one more path. */
  lemma StoresOne(
    db: map<Path, Entry>, before: map<Path, Entry>, offsets: map<Path, nat>, done: set<Path>, disk: Disk, path: Path)
    requires Stored(db, before, offsets, done, disk) && path in offsets
    ensures var name := disk.clean(path);
            Stored(if name in disk.files then db[name := Entry(offsets[path], disk.files[name].id)] else db,
                   before, offsets, done + {path}, disk)
  {
    var name := disk.clean(path);
    var after := if name in disk.files then db[name := Entry(offsets[path], disk.files[name].id)] else db;
    forall n | Serves(db, offsets, done, disk, n)
      ensures Serves(after, offsets, done + {path}, disk, n)
    {
      ServesStill(db, offsets, done, disk, path, n);
    }
    if name in disk.files { assert Serves(after, offsets, done + {path}, disk, name); }
    hide Serves;
  }

  lemma ServesStill(
    db: map<Path, Entry>, offsets: map<Path, nat>, done: set<Path>, disk: Disk, path: Path, n: Path)
    requires Serves(db, offsets, done, disk, n) && path in offsets
    ensures var name := disk.clean(path);
            Serves(if name in disk.files then db[name := Entry(offsets[path], disk.files[name].id)] else db,
                   offsets, done + {path}, disk, n)
  {
    var q :| q in done && q in offsets && disk.clean(q) == n && db[n] == Entry(offsets[q], disk.files[n].id);
    assert q in done + {path} && path in done + {path};
  }

  /** The entry is that of the path itself if its offset is that of every path with the same clean name; and
      of two spellings of one file with different offsets, one loses its place. */
  lemma OneOffsetPerFile(
    db: map<Path, Entry>, before: map<Path, Entry>, offsets: map<Path, nat>, disk: Disk, path: Path)
    requires Stored(db, before, offsets, offsets.Keys, disk) && path in offsets && disk.clean(path) in disk.files
    ensures (forall q | q in offsets && disk.clean(q) == disk.clean(path) :: offsets[q] == offsets[path]) ==>
      db[disk.clean(path)] == Entry(offsets[path], disk.files[disk.clean(path)].id)
    ensures forall q | q in offsets && disk.clean(q) == disk.clean(path) && offsets[q] != offsets[path] ::
      db[disk.clean(path)].offset != offsets[path] || db[disk.clean(q)].offset != offsets[q]
  {
    assert Serves(db, offsets, offsets.Keys, disk, disk.clean(path));
  }

  lemma {:induction false} BoundaryInside(content: seq<byte>, o: nat, k: nat)
    requires o <= |content|
    ensures o <= Boundary(content, o, k) <= |content|
    decreases k
  {
    if k > 0 && LineEnd(content, o) > 0 {
      BoundaryInside(content, LineEnd(content, o), k - 1);
    }
  }
}
