/** The syslog connection as the code runs it: a reader that advances and a count that is adjusted by hand
    along the way. */
module SyslogConn {

  import opened Wrappers
  import opened Bits
  import opened Messages
  import opened SyslogFormat
  import Seqs

  /** What a method has read, without the rest, which is the reader's. */
  datatype Got<+T> = Ok(value: T) | Failed | Panicked

  /** `r` is what `o` says, and the reader has come as far. */
  ghost predicate Agrees<T>(r: Got<T>, rest: seq<byte>, o: Outcome<T>) {
    match o
    case Good(value, after) => r == Ok(value) && rest == after
    case Error => r == Failed
    case Crash => r == Panicked
  }

  /** `bufio.Reader`, on a connection whose reads fare as `arrives` says. */
  class Reader {
    const arrives: Arrival
    var rest: seq<byte>

    constructor (rest: seq<byte>, arrives: Arrival)
      ensures this.rest == rest && this.arrives == arrives
    {
      this.rest, this.arrives := rest, arrives;
    }

    method ReadByte() returns (b: Option<byte>)
      modifies `rest
      ensures old(rest) == [] ==> b == None && rest == []
      ensures old(rest) != [] ==> b == Some(old(rest)[0]) && rest == old(rest)[1..]
    {
      if rest == [] {
        return None;
      }
      b, rest := Some(rest[0]), rest[1..];
    }

    /** `ReadString(d)`, with the delimiter. */
    method ReadString(d: byte) returns (text: Option<seq<byte>>)
      modifies `rest
      ensures text.Some? <==> Until(old(rest), d).Good?
      ensures text.Some? ==> text.value == Until(old(rest), d).value + [d] && rest == Until(old(rest), d).rest
      ensures text.Some? ==> |old(rest)| == |text.value| + |rest|
    {
      var i := Seqs.IndexOf(rest, d);
      if i < 0 {
        rest := [];
        return None;
      }
      text := Some(rest[..i + 1]);
      rest := rest[i + 1..];
    }

    /** `Peek(n)`. */
    method Peek(n: nat) returns (sub: Option<seq<byte>>)
      ensures sub == if n <= |rest| then Some(rest[..n]) else None
    {
      return if n <= |rest| then Some(rest[..n]) else None;
    }

    /** `Read` into a slice of `n` bytes; fewer may come, and the others stay zero. */
    method Read(n: nat) returns (buf: Option<seq<byte>>)
      requires n > 0
      modifies `rest
      ensures old(rest) == [] ==> buf == None && rest == []
      ensures old(rest) != [] ==>
        var d := Amount(arrives, n, |old(rest)|);
        buf == Some(old(rest)[..d] + Zeros(n - d)) && rest == old(rest)[d..]
    {
      if rest == [] {
        return None;
      }
      var d := Amount(arrives, n, |rest|);
      buf := Some(rest[..d] + Zeros(n - d));
      rest := rest[d..];
    }
  }

  class Syslog {
    const octetCounted: bool
    const pt: TimeParser
    const input: Reader
    /** A 64-bit counter. */
    var totalBytes: nat
    var received: seq<SyslogMessage>

    constructor (octetCounted: bool, pt: TimeParser, input: Reader)
      ensures this.octetCounted == octetCounted && this.pt == pt && this.input == input
      ensures totalBytes == 0 && received == []
    {
      this.octetCounted, this.pt, this.input, totalBytes, received := octetCounted, pt, input, 0, [];
    }

    /** The loop over the layouts. */
    method ReadStamp(total0: int) returns (r: Got<Interval>, total: int)
      modifies input`rest
      ensures Agrees(r, input.rest, Stamp(pt, old(input.rest), 0))
      ensures r.Ok? ==> total == total0 - (|old(input.rest)| - |input.rest|)
    {
      total := total0;
      ghost var start := input.rest;
      for i := 0 to 4
        invariant input.rest == start && total == total0
        invariant Stamp(pt, start, 0) == Stamp(pt, start, i)
      {
        var sub := input.Peek(LAYOUTS[i]);
        if sub.None? {
          return Failed, total;
        }
        var text := sub.value;
        if i == 2 {
          var idx := Seqs.IndexOf(text, SP);
          if idx != -1 {
            text := text[..idx];
          }
        }
        var ts := pt(i, text);
        if ts.Some? {
          input.rest := input.rest[|text|..];
          total := total - |text|;
          return Ok(ts.value), total;
        }
      }
      return Failed, total;
    }

    /** A word up to its delimiter. */
    method Word(d: byte, total0: int) returns (r: Got<seq<byte>>, total: int)
      modifies input`rest
      ensures Agrees(r, input.rest, Until(old(input.rest), d))
      ensures r.Ok? ==> total == total0 - (|old(input.rest)| - |input.rest|)
    {
      var text := input.ReadString(d);
      if text.None? {
        return Failed, total0;
      }
      total := total0 - |text.value|;
      return Ok(text.value[..|text.value| - 1]), total;
    }

    /** Time stamp and host. */
    method ReadStampAndHost(total0: int) returns (r: Got<(Interval, seq<byte>)>, total: int)
      modifies input`rest
      ensures Agrees(r, input.rest, StampAndHost(pt, old(input.rest)))
      ensures r.Ok? ==> total == total0 - (|old(input.rest)| - |input.rest|)
    {
      hide Stamp, Until;
      var ts;
      ts, total := ReadStamp(total0);
      if !ts.Ok? {
        return Failed, total;
      }
      var c := input.ReadByte();
      if c.None? || c.value != SP {
        return Failed, total;
      }
      total := total - 1;
      var host;
      host, total := Word(SP, total);
      if !host.Ok? {
        return Failed, total;
      }
      return Ok((ts.value, host.value)), total;
    }

    method ReadPlain(total0: int) returns (r: Got<Entry>, total: int)
      modifies input`rest
      ensures Agrees(r, input.rest, PlainHead(pt, old(input.rest)))
      ensures r.Ok? ==> total == total0 - (|old(input.rest)| - |input.rest|)
    {
      hide StampAndHost, Until, Atoi;
      var start;
      start, total := ReadStampAndHost(total0);
      if !start.Ok? {
        return Failed, total;
      }
      var tag;
      tag, total := Word(COLON, total);
      if !tag.Ok? {
        return Failed, total;
      }
      var text, pid := tag.value, 0;
      var idx := Seqs.IndexOf(text, OPEN);
      if idx != -1 {
        var right := Seqs.IndexOf(text, CLOSE);
        if right != -1 {
          if right < idx {
            return Panicked, total;
          }
          var p := Atoi(text[idx + 1..right]);
          if p.Some? {
            pid, text := p.value, text[..idx];
          }
        }
      }
      return Ok(Plain(start.value.0, start.value.1, text, pid)), total;
    }

    /** A parameter value up to its closing quote. */
    method ReadValue(total0: int) returns (r: Got<seq<byte>>, total: int)
      modifies input`rest
      ensures Agrees(r, input.rest, Value(old(input.rest)))
      ensures r.Ok? ==> total == total0 - (|old(input.rest)| - |input.rest|)
      ensures |input.rest| <= |old(input.rest)|
    {
      var val := [];
      total := total0;
      ghost var s := Value(input.rest);
      JoinedNone(Value(input.rest));
      while true
        invariant Joined(val, Value(input.rest)) == s
        invariant |input.rest| <= |old(input.rest)| && total == total0 - (|old(input.rest)| - |input.rest|)
        decreases |input.rest|
      {
        ghost var v := input.rest;
        var c := input.ReadByte();
        if c.None? {
          return Failed, total;
        }
        total := total - 1;
        if c.value == QUOTE {
          Seqs.Nil(val);
          return Ok(val), total;
        }
        if c.value == BACKSLASH {
          c := input.ReadByte();
          if c.None? {
            return Failed, total;
          }
          total := total - 1;
          assert input.rest == v[2..];
        }
        JoinedMore(val, c.value, Value(input.rest));
        val := val + [c.value];
      }
    }

    /** The parameters up to the closing bracket. */
    method ReadParams(total0: int) returns (r: Got<seq<Param>>, total: int)
      modifies input`rest
      ensures Agrees(r, input.rest, Params(old(input.rest)))
      ensures r.Ok? ==> total == total0 - (|old(input.rest)| - |input.rest|)
    {
      hide Value, Until;
      var ps := [];
      total := total0;
      ghost var s := Params(input.rest);
      JoinedNone(Params(input.rest));
      while true
        invariant Joined(ps, Params(input.rest)) == s
        invariant |input.rest| <= |old(input.rest)| && total == total0 - (|old(input.rest)| - |input.rest|)
        decreases |input.rest|
      {
        ghost var v := input.rest;
        var peek := input.Peek(1);
        if peek.None? {
          return Failed, total;
        }
        if peek.value[0] == CLOSE {
          var c := input.ReadByte();
          total := total - 1;
          Seqs.Nil(ps);
          return Ok(ps), total;
        }
        if peek.value[0] == SP {
          var c := input.ReadByte();
          total := total - 1;
        }
        var name;
        name, total := Word(EQUALS, total);
        if !name.Ok? {
          return Failed, total;
        }
        var q := input.ReadByte();
        if q.None? {
          return Failed, total;
        }
        total := total - 1;
        if q.value != QUOTE {
          return Failed, total;
        }
        var val;
        val, total := ReadValue(total);
        if !val.Ok? {
          return Failed, total;
        }
        JoinedMore(ps, Param(name.value, val.value), Params(input.rest));
        ps := ps + [Param(name.value, val.value)];
      }
    }

    /** `-` and a space, or one element. */
    method ReadData(total0: int) returns (r: Got<(seq<byte>, seq<Param>)>, total: int)
      modifies input`rest
      ensures Agrees(r, input.rest, Data(old(input.rest)))
      ensures r.Ok? ==> total == total0 - (|old(input.rest)| - |input.rest|)
    {
      hide Params, Until;
      var peek := input.Peek(1);
      if peek.None? {
        return Failed, total0;
      }
      if peek.value[0] == DASH {
        var c := input.ReadByte();
        c := input.ReadByte();
        if c.None? || c.value != SP {
          return Failed, total0;
        }
        total := total0 - 2;
        return Ok(([], [])), total;
      }
      var sdid;
      sdid, total := Word(SP, total0);
      if !sdid.Ok? {
        return Failed, total;
      }
      if sdid.value == [] {
        return Panicked, total;
      }
      var ps;
      ps, total := ReadParams(total);
      if !ps.Ok? {
        return if ps.Failed? then Failed else Panicked, total;
      }
      return Ok((sdid.value[1..], ps.value)), total;
    }

    /** The head of `parse5425`. */
    method ReadStructured(total0: int) returns (r: Got<Entry>, total: int)
      modifies input`rest
      ensures Agrees(r, input.rest, StructuredHead(pt, old(input.rest)))
      ensures r.Ok? ==> total == total0 - (|old(input.rest)| - |input.rest|)
    {
      hide StampAndHost, Until, Data;
      var start;
      start, total := ReadStampAndHost(total0);
      if !start.Ok? {
        return Failed, total;
      }
      var tag, procid, msgid;
      tag, total := Word(SP, total);
      if !tag.Ok? {
        return Failed, total;
      }
      procid, total := Word(SP, total);
      if !procid.Ok? {
        return Failed, total;
      }
      msgid, total := Word(SP, total);
      if !msgid.Ok? {
        return Failed, total;
      }
      var data;
      data, total := ReadData(total);
      if !data.Ok? {
        return if data.Failed? then Failed else Panicked, total;
      }
      var (element, params) := data.value;
      return Ok(Structured(start.value.0, start.value.1, tag.value, procid.value, msgid.value, element, params)), total;
    }

    method ReadPriority(total0: int) returns (r: Got<int>, total: int)
      modifies input`rest
      ensures Agrees(r, input.rest, Priority(old(input.rest)))
      ensures r.Ok? ==> total == total0 - (|old(input.rest)| - |input.rest|)
    {
      hide Until, Atoi;
      var c := input.ReadByte();
      if c.None? || c.value != 60 {
        return Failed, total0;
      }
      total := total0 - 1;
      var nxt;
      nxt, total := Word(62, total);
      if !nxt.Ok? {
        return Failed, total;
      }
      var prio := Atoi(nxt.value);
      if prio.None? {
        return Failed, total;
      }
      return Ok(prio.value), total;
    }

    method ReadHead(total0: int) returns (r: Got<(int, Entry)>, total: int)
      modifies input`rest
      ensures Agrees(r, input.rest, Head(pt, old(input.rest)))
      ensures r.Ok? ==> total == total0 - (|old(input.rest)| - |input.rest|)
    {
      hide Priority, StructuredHead, PlainHead;
      var prio;
      prio, total := ReadPriority(total0);
      if !prio.Ok? {
        return Failed, total;
      }
      var peek := input.Peek(2);
      if peek.None? {
        return Failed, total;
      }
      var entry: Got<Entry>;
      if peek.value[0] == 49 && peek.value[1] == SP {
        var c := input.ReadByte();
        c := input.ReadByte();
        total := total - 2;
        entry, total := ReadStructured(total);
      } else {
        entry, total := ReadPlain(total);
      }
      if !entry.Ok? {
        return if entry.Failed? then Failed else Panicked, total;
      }
      return Ok((prio.value, entry.value)), total;
    }

    /** `parseSyslog`.  In newline mode what it returns is minus the bytes that the message took. */
    method ParseSyslog(total0: int) returns (r: Got<SyslogMessage>, total: int)
      modifies input`rest
      ensures Agrees(r, input.rest, Parse(pt, old(input.rest), total0, input.arrives))
      ensures total0 <= 0 && r.Ok? ==> total == total0 - (|old(input.rest)| - |input.rest|)
    {
      hide Head, Until;
      var head;
      head, total := ReadHead(total0);
      if !head.Ok? {
        return if head.Failed? then Failed else Panicked, total;
      }
      var msg: seq<byte>;
      if total > 0 {
        var buf := input.Read(total);
        if buf.None? {
          return Failed, total;
        }
        msg := buf.value;
      } else {
        var text := input.ReadString(NL);
        if text.None? {
          return Failed, total;
        }
        msg := text.value;
        total := total - |msg|;
      }
      if NoSuchPriority(head.value.0) {
        return Panicked, total;
      }
      return Ok(SyslogMessage(head.value.0, head.value.1, msg)), total;
    }

    /** `runConn` up to the error that ends it. */
    method RunConn() returns (panicked: bool)
      requires totalBytes < TWO_64
      modifies this, input`rest
      ensures var run := Run(pt, old(input.rest), octetCounted, input.arrives);
              received == old(received) + run.0 && totalBytes == (old(totalBytes) + run.1) % TWO_64
    {
      hide Parse, Until, Atoi;
      ghost var start, before, count := input.rest, received, totalBytes as int;
      ghost var run := Run(pt, start, octetCounted, input.arrives);
      ghost var sum := 0;
      Seqs.Nil(before);
      Seqs.Nil(run.0);
      while true
        invariant totalBytes < TWO_64
        invariant received + Run(pt, input.rest, octetCounted, input.arrives).0 == before + run.0
        invariant sum + Run(pt, input.rest, octetCounted, input.arrives).1 == run.1
        invariant totalBytes == (count + sum) % TWO_64
        decreases |input.rest|
      {
        ghost var s := input.rest;
        RunIs(pt, s, octetCounted, input.arrives);
        Seqs.Nil(received);
        var sz := 0;
        if octetCounted {
          var szStr := input.ReadString(SP);
          if szStr.None? {
            return false;
          }
          var n := Atoi(szStr.value[..|szStr.value| - 1]);
          if n.None? {
            return false;
          }
          sz := n.value;
        }
        ghost var u := input.rest;
        var m, bytes := ParseSyslog(sz);
        if !m.Ok? {
          return m.Panicked?;
        }
        if sz == 0 {
          sz := -bytes;
        }
        Seqs.Assoc(received, [m.value], Run(pt, input.rest, octetCounted, input.arrives).0);
        AddModulo(count + sum, sz);
        totalBytes := (totalBytes + sz) % TWO_64;
        sum := sum + sz;
        received := received + [m.value];
      }
    }
  }

  /** What was collected, and then the outcome of the rest. */
  ghost function Joined<T>(done: seq<T>, o: Outcome<seq<T>>): Outcome<seq<T>> {
    match o
    case Good(more, rest) => Good(done + more, rest)
    case Error => Error
    case Crash => Crash
  }

  lemma JoinedNone<T>(o: Outcome<seq<T>>)
    ensures Joined([], o) == o
  {
    if o.Good? { Seqs.Nil(o.value); }
  }

  lemma JoinedMore<T>(done: seq<T>, x: T, o: Outcome<seq<T>>)
    ensures Joined(done + [x], o) == Joined(done, match o
                                                  case Good(more, rest) => Good([x] + more, rest)
                                                  case Error => Error
                                                  case Crash => Crash)
  {
    if o.Good? { Seqs.Assoc(done, [x], o.value); }
  }

  lemma AddModulo(a: int, b: int)
    ensures (a % TWO_64 + b) % TWO_64 == (a + b) % TWO_64
  {
  }

  /** A connection: its messages, and what their counting adds up to. */
  function Run(pt: TimeParser, s: seq<byte>, octetCounted: bool, arrives: Arrival): (r: (seq<SyslogMessage>, int))
    decreases |s|
  {
    var size := Size(s, octetCounted);
    if !size.Good? then ([], 0)
    else
      var m := Parse(pt, size.rest, size.value, arrives);
      if !m.Good? then ([], 0)
      else
        var later := Run(pt, m.rest, octetCounted, arrives);
        ([m.value] + later.0, (if size.value == 0 then |size.rest| - |m.rest| else size.value) + later.1)
  }

  /** The octet count before a message, 0 in newline mode. */
  function Size(s: seq<byte>, octetCounted: bool): (r: Outcome<int>)
    ensures r.Good? ==> |r.rest| <= |s|
  {
    if !octetCounted then Good(0, s)
    else if !Until(s, SP).Good? then Error
    else match Atoi(Until(s, SP).value)
         case None => Error
         case Some(n) => Good(n, Until(s, SP).rest)
  }

  lemma RunIs(pt: TimeParser, s: seq<byte>, octetCounted: bool, arrives: Arrival)
    ensures var size := Size(s, octetCounted);
            Run(pt, s, octetCounted, arrives) ==
              if !size.Good? || !Parse(pt, size.rest, size.value, arrives).Good? then ([], 0)
              else
                var m := Parse(pt, size.rest, size.value, arrives);
                ([m.value] + Run(pt, m.rest, octetCounted, arrives).0,
                 (if size.value == 0 then |size.rest| - |m.rest| else size.value)
                 + Run(pt, m.rest, octetCounted, arrives).1)
  {
    hide Parse, Size;
  }

  /** How many bytes the messages of a connection in newline mode took. */
  function Consumed(pt: TimeParser, s: seq<byte>, arrives: Arrival): nat
    decreases |s|
  {
    var m := Parse(pt, s, 0, arrives);
    if m.Good? then |s| - |m.rest| + Consumed(pt, m.rest, arrives) else 0
  }

  /** In newline mode the counter grows by exactly the bytes consumed. */
  lemma {:induction false} CountsWhatItConsumes(pt: TimeParser, s: seq<byte>, arrives: Arrival)
    ensures Run(pt, s, false, arrives).1 == Consumed(pt, s, arrives) <= |s|
    decreases |s|
  {
    RunIs(pt, s, false, arrives);
    hide Parse;
    if Parse(pt, s, 0, arrives).Good? {
      CountsWhatItConsumes(pt, Parse(pt, s, 0, arrives).rest, arrives);
    }
  }
}
