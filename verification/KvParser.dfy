/** `KVParser` on the buffered scanner: every method does to the source what its function in `KvParse` says. */
module KvParser {

  import opened Wrappers
  import opened Bits
  import opened Utf8
  import opened Tokens
  import opened Messages
  import opened Symbols
  import opened KvParse
  import opened Scanner
  import Seqs
  import D = Decimals

  /** What a method has read, without the place it has come to, which is the scanner's. */
  datatype Got<+T> = Ok(value: T) | Malformed | Crashed

  /** `r` is the step `s`, and the scanner is where it leads. */
  ghost predicate Agrees<T>(r: Got<T>, at: Cursor, s: Step<T>) {
    match s
    case Good(value, rest) => r == Ok(value) && at == rest
    case Bad(rest) => r == Malformed && at == rest
    case Crash => r == Crashed
  }

  /** The outcome of `Generate`; `Hang` stands for a call that never returns. */
  datatype Outcome = Generated(m: Message) | Eof | Hang | Panic

  ghost predicate Ends(r: Outcome, at: Cursor, p: Parsed) {
    match p
    case Parsed(m, rest) => r == Generated(m) && at == rest
    case End(rest) => r == Eof && at == rest
    case Stuck => r == Hang
    case Panics => r == Panic
  }

  class KvParser {
    const scan: Scanner
    const k: Parser

    constructor (scan: Scanner, k: Parser)
      requires scan.config == k.f
      ensures this.scan == scan && this.k == k
    {
      this.scan, this.k := scan, k;
    }

    ghost predicate Valid()
      reads scan, scan.src, scan.srcBuf
    {
      scan.Valid() && scan.config == k.f
    }

    ghost function At(): Cursor
      reads scan, scan.src, scan.srcBuf
      requires Valid()
    {
      scan.At()
    }

    /** The scanner has just scanned `t`. */
    ghost predicate Scanned(t: Token)
      reads scan, scan.src, scan.srcBuf
    {
      && Valid() && scan.ch != -2 && scan.tokPos >= 0 && scan.Marked(t.start)
      && At() == t.end && |t.end.cur| <= |t.start.cur|
    }

    lemma SaneConfig()
      requires Valid()
      ensures Sane(k.f)
    {
    }

    method Scan() returns (tok: int, ghost t: Token)
      requires Valid()
      modifies scan, scan.src, scan.srcBuf
      ensures t == ScanAt(k.f, old(At())) && tok == t.tok && Scanned(t)
    {
      hide ScanAt, scan.Valid, scan.At, scan.Marked;
      t := ScanAt(k.f, At());
      tok := scan.Scan();
    }

    /** `scan.TokenText()` after a scan. */
    method Text(ghost t: Token) returns (text: seq<byte>)
      requires Scanned(t)
      modifies scan
      ensures Valid() && At() == old(At()) && scan.ch != -2
      ensures text == TokenText(t)
    {
      TextIs(t);
      hide scan.Valid, scan.At;
      text := scan.TokenText();
    }

    lemma TextIs(t: Token)
      requires Scanned(t)
      ensures scan.offset <= |scan.whole| - |t.end.cur|
      ensures TokenText(t) == scan.whole[scan.offset..|scan.whole| - |t.end.cur|]
    {
      hide scan.Valid, scan.At;
      Seqs.Split(scan.whole, scan.offset, |scan.whole| - |t.end.cur|, |scan.whole|);
    }

    method Peek() returns (r: int)
      requires Valid()
      modifies scan, scan.src, scan.srcBuf
      ensures Valid() && At() == old(At()) && r == Rune(At().cur)
    {
      hide scan.Valid, scan.At, Rune;
      r := scan.Peek();
    }

    method Next() returns (r: int)
      requires Valid()
      modifies scan, scan.src, scan.srcBuf
      ensures Valid() && At() == Advance(old(At())) && r == Rune(old(At()).cur)
    {
      hide scan.Valid, scan.At, Rune, Advance;
      r := scan.Next();
    }

    method SkipToStart() returns (found: bool)
      requires Valid()
      modifies scan, scan.src, scan.srcBuf
      ensures Valid() && (found, At()) == KvParse.SkipToStart(old(At()))
    {
      hide scan.Valid, scan.At, Rune, Advance;
      while true
        invariant Valid() && KvParse.SkipToStart(At()) == KvParse.SkipToStart(old(At()))
        decreases |At().cur|
      {
        EndOrNot(At());
        AdvanceAtEnd(At());
        var tok := Next();
        if tok == 10 {
          EndOrNot(At());
          tok := Peek();
          if tok == 62 {
            tok := Next();
            return true;
          }
          if tok == EOF {
            return false;
          }
        } else if tok == EOF {
          return false;
        }
      }
    }

    method SkipToNewline()
      requires Valid()
      modifies scan, scan.src, scan.srcBuf
      ensures Valid() && At() == KvParse.SkipToNewline(k.f, old(At()))
    {
      hide scan.Valid, scan.At, Rune, Advance, ScanAt;
      while true
        invariant Valid() && KvParse.SkipToNewline(k.f, At()) == KvParse.SkipToNewline(k.f, old(At()))
        decreases |At().cur|
      {
        SaneConfig();
        EofToken(k.f, At());
        var tok, t := Scan();
        if tok == 10 || tok == EOF {
          return;
        }
      }
    }

    /** The loops that collect text up to a space; `None` when they would never end. */
    method UntilSpace() returns (r: Option<seq<byte>>)
      requires Valid()
      modifies scan, scan.src, scan.srcBuf
      ensures Valid()
      ensures r.None? <==> KvParse.UntilSpace(old(At())).None?
      ensures r.Some? ==> (r.value, At()) == KvParse.UntilSpace(old(At())).value
    {
      hide scan.Valid, scan.At, Rune, Advance, EncodeRune, KvParse.UntilSpace, MoreText;
      var buf := [];
      ghost var s := KvParse.UntilSpace(At());
      MoreStart(s);
      while true
        invariant Valid() && MoreText(buf, s, KvParse.UntilSpace(At()))
        decreases |At().cur|
      {
        EndOrNot(At());
        UntilSpaceStep(buf, s, At());
        var tok := Next();
        if tok == 32 {
          return Some(buf);
        }
        if tok == EOF {
          return None;
        }
        buf := buf + EncodeRune(tok);
      }
    }

    method BareLine() returns (text: seq<byte>, eof: bool)
      requires Valid()
      modifies scan, scan.src, scan.srcBuf
      ensures Valid() && (text, At()) == KvParse.BareLine(old(At()))
      ensures eof && text == [] ==> old(At()).cur == []
      ensures !eof ==> |At().cur| < |old(At()).cur|
    {
      hide scan.Valid, scan.At, Rune, Advance, EncodeRune, KvParse.BareLine, MoreText;
      text := [];
      ghost var start, s := At(), Some(KvParse.BareLine(At()));
      MoreStart(s);
      while true
        invariant Valid() && |At().cur| <= |start.cur| && (text == [] ==> At() == start)
        invariant MoreText(text, s, Some(KvParse.BareLine(At())))
        decreases |At().cur|
      {
        EndOrNot(At());
        BareLineStep(text, s, At());
        var tok := Next();
        if tok == 10 {
          return text, false;
        }
        if tok == EOF {
          return text, true;
        }
        text := text + EncodeRune(tok);
      }
    }

    /** `readBare`. */
    method ReadBare() returns (r: Outcome)
      requires Valid()
      modifies scan, scan.src, scan.srcBuf
      ensures Valid() && Ends(r, At(), KvParse.ReadBare(k, old(At())))
    {
      hide scan.Valid, scan.At, KvParse.BareLine, Keyed;
      ghost var start := At();
      while true
        invariant Valid() && KvParse.ReadBare(k, start) == KvParse.ReadBare(k, At())
        decreases |At().cur|
      {
        ghost var c := At();
        AdvanceAtEnd(c);
        BareLineIs(c);
        var text, eof := BareLine();
        if |text| > 0 {
          var a := Keyed([109, 101, 115, 115, 97, 103, 101]).(sval := Some(text));
          return Generated(NewLog(k.now).(attributes := [a]));
        }
        if eof {
          return Eof;
        }
      }
    }

    /** The dots of a name and the parts behind them. */
    method DottedName(first: seq<byte>) returns (r: Got<seq<byte>>)
      requires Valid()
      modifies scan, scan.src, scan.srcBuf
      ensures Valid() && Agrees(r, At(), KvParse.DottedName(k.f, first, old(At())))
    {
      hide scan.Valid, scan.At, Rune, Advance, ScanAt;
      var name := first;
      ghost var s := KvParse.DottedName(k.f, first, At());
      while true
        invariant Valid() && KvParse.DottedName(k.f, name, At()) == s
        decreases |At().cur|
      {
        var dot := Peek();
        if dot != 46 {
          return Ok(name);
        }
        EndOrNot(At());
        ghost var t;
        var tok;
        tok, t := Scan();
        tok, t := Scan();
        if tok != IDENT {
          return Malformed;
        }
        var part := Text(t);
        name := name + [46] + part;
      }
    }

    /** A quoted token without its quotes. */
    method InnerText(ghost t: Token) returns (r: Got<seq<byte>>)
      requires Scanned(t)
      modifies scan
      ensures Valid() && At() == old(At())
      ensures r == match Inner(TokenText(t)) case None => Crashed case Some(s) => Ok(s)
    {
      hide scan.Valid, scan.At, TokenText;
      var text := Text(t);
      if |text| < 2 {
        return Crashed;
      }
      return Ok(text[1..|text| - 1]);
    }

    method Name(tok: int, ghost t: Token) returns (r: Got<seq<byte>>)
      requires Scanned(t) && tok == t.tok
      modifies scan, scan.src, scan.srcBuf
      ensures Valid() && Agrees(r, At(), NameFrom(k.f, t))
    {
      hide scan.Valid, scan.At, ScanAt, TokenText, KvParse.DottedName, Inner;
      if tok == IDENT {
        var first := Text(t);
        r := DottedName(first);
      } else if tok == STRING {
        r := InnerText(t);
      } else {
        r := Malformed;
      }
    }

    method TagValue() returns (r: Got<seq<byte>>)
      requires Valid()
      modifies scan, scan.src, scan.srcBuf
      ensures Valid() && Agrees(r, At(), KvParse.TagValue(k.f, old(At())))
    {
      hide scan.Valid, scan.At, ScanAt, TokenText, Inner;
      var tok, t := Scan();
      if tok == STRING {
        r := InnerText(t);
      } else if tok == IDENT {
        var text := Text(t);
        r := Ok(text);
      } else {
        r := Malformed;
      }
    }

    method ValuedTag(tok: int, ghost t: Token) returns (r: Got<Tag>)
      requires Scanned(t) && tok == t.tok
      modifies scan, scan.src, scan.srcBuf
      ensures Valid() && Agrees(r, At(), KvParse.ValuedTag(k.f, t))
    {
      hide scan.Valid, scan.At, ScanAt, NameFrom, KvParse.TagValue;
      var name := Name(tok, t);
      if !name.Ok? {
        return if name.Malformed? then Malformed else Crashed;
      }
      var e, u := Scan();
      if e != 61 {
        return Malformed;
      }
      var value := TagValue();
      if !value.Ok? {
        return if value.Malformed? then Malformed else Crashed;
      }
      return Ok(Tag(name.value, Some(value.value), []));
    }

    method Tags() returns (r: Got<seq<Tag>>)
      requires Valid()
      modifies scan, scan.src, scan.srcBuf
      ensures Valid() && Agrees(r, At(), KvParse.Tags(k.f, old(At()), []))
    {
      hide scan.Valid, scan.At, ScanAt, KvParse.ValuedTag, TokenText;
      var tags := [];
      ghost var s := KvParse.Tags(k.f, At(), []);
      while true
        invariant Valid() && KvParse.Tags(k.f, At(), tags) == s
        decreases |At().cur|
      {
        SaneConfig();
        EofToken(k.f, At());
        var tok, t := Scan();
        if tok == EOF {
          return Malformed;
        }
        if tok == 93 {
          return Ok(tags);
        }
        if tok == 33 {
          tok, t := Scan();
          if tok != IDENT {
            return Malformed;
          }
          var name := Text(t);
          tags := tags + [Tag(name, None, [])];
        } else {
          var tag := ValuedTag(tok, t);
          if !tag.Ok? {
            return if tag.Malformed? then Malformed else Crashed;
          }
          tags := tags + [tag.value];
        }
      }
    }

    /** An interval behind its colon. */
    method IntervalValue(a: Attribute) returns (r: Got<Attribute>)
      requires Valid()
      modifies scan, scan.src, scan.srcBuf
      ensures Valid()
      ensures var u := ScanAt(k.f, old(At()));
              u.tok == FLOAT ==> Agrees(r, At(), AsInterval(u, a))
      ensures ScanAt(k.f, old(At())).tok != FLOAT ==> r == Malformed && At() == ScanAt(k.f, old(At())).end
    {
      hide scan.Valid, scan.At, ScanAt, TokenText, D.LaxInt, D.Nanoseconds, Seqs.IndexOf;
      var st, u := Scan();
      if st != FLOAT {
        return Malformed;
      }
      var text := Text(u);
      var dot := Seqs.IndexOf(text, 46);
      if dot == -1 {
        return Malformed;
      }
      var seconds := D.LaxInt(text[..dot], TWO_63 - 1);
      var nanos := D.Nanoseconds(text[dot + 1..]);
      if nanos.None? {
        return Crashed;
      }
      return Ok(a.(tval := Some(Interval(seconds, nanos.value, []))));
    }

    method PairValue(a: Attribute) returns (r: Got<Attribute>)
      requires Valid()
      modifies scan, scan.src, scan.srcBuf
      ensures Valid() && Agrees(r, At(), KvParse.PairValue(k, old(At()), a))
    {
      hide scan.Valid, scan.At, ScanAt, TokenText, ParseInt0, IntervalOf, Inner;
      var tok, t := Scan();
      if tok == 58 {
        r := IntervalValue(a);
      } else if tok == INT {
        var text := Text(t);
        var i := ParseInt0(text);
        return if i.None? then Malformed else Ok(a.(ival := Some(i.value)));
      } else if tok == FLOAT {
        var text := Text(t);
        var x := k.n.parseFloat(text);
        if x.Some? {
          return Ok(a.(fval := Some(x.value)));
        }
        var i := ParseInt0(text);
        return if i.None? then Malformed else Ok(a.(ival := Some(i.value)));
      } else if tok == STRING {
        var text := InnerText(t);
        return if text.Ok? then Ok(a.(sval := Some(text.value))) else if text.Malformed? then Malformed else Crashed;
      } else if tok == IDENT || tok == CHAR {
        var text := Text(t);
        return Ok(a.(sval := Some(text)));
      } else {
        return Malformed;
      }
    }

    method Pair(tok: int, ghost t: Token) returns (r: Got<Attribute>)
      requires Scanned(t) && tok == t.tok
      modifies scan, scan.src, scan.srcBuf
      ensures Valid() && Agrees(r, At(), KvParse.Pair(k, t))
    {
      hide scan.Valid, scan.At, ScanAt, NameFrom, KvParse.PairValue, Keyed;
      var key := Name(tok, t);
      if !key.Ok? {
        return if key.Malformed? then Malformed else Crashed;
      }
      var e, u := Scan();
      if e != 61 {
        return Malformed;
      }
      r := PairValue(Keyed(key.value));
    }

    method Pairs() returns (r: Got<seq<Attribute>>)
      requires Valid()
      modifies scan, scan.src, scan.srcBuf
      ensures Valid() && Agrees(r, At(), KvParse.Pairs(k, old(At()), []))
    {
      hide scan.Valid, scan.At, ScanAt, KvParse.Pair, Rune;
      var pairs := [];
      ghost var s := KvParse.Pairs(k, At(), []);
      while true
        invariant Valid() && KvParse.Pairs(k, At(), pairs) == s
        decreases |At().cur|
      {
        EndOrNot(At());
        SaneConfig();
        var tok := Peek();
        if tok == 10 || tok == EOF {
          return Ok(pairs);
        }
        EofToken(k.f, At());
        ghost var t;
        tok, t := Scan();
        if tok == EOF {
          return Malformed;
        }
        var pair := Pair(tok, t);
        if !pair.Ok? {
          return if pair.Malformed? then Malformed else Crashed;
        }
        pairs := pairs + [pair.value];
      }
    }

    /** A timestamp, if there is one; `None` is an endless loop. */
    method Stamped(m: Message) returns (r: Option<Message>)
      requires Valid()
      modifies scan, scan.src, scan.srcBuf
      ensures Valid()
      ensures r.None? <==> KvParse.Stamped(k, m, old(At())).None?
      ensures r.Some? ==> (r.value, At()) == KvParse.Stamped(k, m, old(At())).value
    {
      hide scan.Valid, scan.At, Rune, Advance, KvParse.UntilSpace;
      var tok := Peek();
      if tok != 64 {
        return Some(m);
      }
      tok := Next();
      var text := UntilSpace();
      if text.None? {
        return None;
      }
      var ts := k.n.unstamp([64] + text.value);
      return Some(if ts.Some? then m.(timestamp := ts) else m);
    }

    /** A session, if there is one; `None` is an endless loop. */
    method Session(m: Message) returns (r: Option<Message>)
      requires Valid()
      modifies scan, scan.src, scan.srcBuf
      ensures Valid()
      ensures r.None? <==> KvParse.Session(m, old(At())).None?
      ensures r.Some? ==> Good(r.value, At()) == KvParse.Session(m, old(At())).value
    {
      hide scan.Valid, scan.At, Rune, Advance, KvParse.UntilSpace;
      var tok := Peek();
      if tok != 92 {
        return Some(m);
      }
      tok := Next();
      var text := UntilSpace();
      if text.None? {
        return None;
      }
      return Some(m.(session := text));
    }

    /** Flag, timestamp and session; `None` is an endless loop. */
    method Head() returns (r: Option<Got<Message>>)
      requires Valid()
      modifies scan, scan.src, scan.srcBuf
      ensures Valid()
      ensures r.None? <==> KvParse.Head(k, old(At())).None?
      ensures r.Some? ==> Agrees(r.value, At(), KvParse.Head(k, old(At())).value)
    {
      hide scan.Valid, scan.At, Rune, Advance, KvParse.Stamped, KvParse.Session;
      var m := NewLog(k.now);
      var tok := Peek();
      var flag := TypeFlag(tok);
      if flag.Some? {
        tok := Next();
        m := m.(typ := flag);
      }
      tok := Next();
      if tok != 32 {
        return Some(Malformed);
      }
      var stamped := Stamped(m);
      if stamped.None? {
        return None;
      }
      var session := Session(stamped.value);
      if session.None? {
        return None;
      }
      return Some(Ok(session.value));
    }

    /** Tags and pairs. */
    method Rest(m: Message) returns (r: Got<Message>)
      requires Valid()
      modifies scan, scan.src, scan.srcBuf
      ensures Valid() && Agrees(r, At(), KvParse.Rest(k, m, old(At())))
    {
      hide scan.Valid, scan.At, Rune, Advance, KvParse.Tags, KvParse.Pairs;
      var tags: Got<seq<Tag>> := Ok([]);
      var tok := Peek();
      if tok == 91 {
        tok := Next();
        tags := Tags();
      }
      if !tags.Ok? {
        return if tags.Malformed? then Malformed else Crashed;
      }
      var pairs := Pairs();
      if !pairs.Ok? {
        return if pairs.Malformed? then Malformed else Crashed;
      }
      return Ok(m.(tags := tags.value, attributes := pairs.value));
    }

    /** `Generate`; a line that cannot be read restarts the search for one. */
    method Generate() returns (r: Outcome)
      requires Valid()
      modifies scan, scan.src, scan.srcBuf
      ensures Valid() && Ends(r, At(), KvParse.Generate(k, old(At())))
    {
      hide scan.Valid, scan.At, Rune, Advance, KvParse.Head, KvParse.Rest, KvParse.ReadBare, KvParse.SkipToStart,
           KvParse.SkipToNewline;
      ghost var p := KvParse.Generate(k, At());
      while true
        invariant Valid() && KvParse.Generate(k, At()) == p
        decreases |At().cur|
      {
        EndOrNot(At());
        var tok := Peek();
        if tok == EOF {
          return Eof;
        }
        if tok != 62 {
          if k.bare {
            r := ReadBare();
            return;
          }
          var found := SkipToStart();
          if !found {
            return Eof;
          }
        } else {
          tok := Next();
        }
        EndOrNot(At());
        tok := Peek();
        if tok == EOF {
          return Eof;
        }
        var head := Head();
        if head.None? {
          return Hang;
        }
        if head.value.Ok? {
          var m := Rest(head.value.value);
          if m.Ok? {
            return Generated(m.value);
          }
          if m.Crashed? {
            return Panic;
          }
          SkipToNewline();
        }
      }
    }
  }

  /** `text` has been collected of what `s` promised, and `now` is still to come. */
  ghost predicate MoreText(text: seq<byte>, s: Option<(seq<byte>, Cursor)>, now: Option<(seq<byte>, Cursor)>) {
    if s.Some? then now.Some? && s.value.0 == text + now.value.0 && s.value.1 == now.value.1 else now.None?
  }

  lemma MoreStart(s: Option<(seq<byte>, Cursor)>)
    ensures MoreText([], s, s)
  {
  }

  lemma MoreStep(
    text: seq<byte>, s: Option<(seq<byte>, Cursor)>, part: seq<byte>, rest: Option<(seq<byte>, Cursor)>,
    now: Option<(seq<byte>, Cursor)>)
    requires MoreText(text, s, now)
    requires if rest.Some? then now == Some((part + rest.value.0, rest.value.1)) else now.None?
    ensures MoreText(text + part, s, rest)
  {
    if rest.Some? { Seqs.Assoc(text, part, rest.value.0); }
  }

  lemma MoreEnd(text: seq<byte>, s: Option<(seq<byte>, Cursor)>, d: Cursor)
    requires MoreText(text, s, Some(([], d)))
    ensures s == Some((text, d))
  {
    assert text + [] == text;
  }

  lemma UntilSpaceStep(text: seq<byte>, s: Option<(seq<byte>, Cursor)>, c: Cursor)
    requires MoreText(text, s, KvParse.UntilSpace(c))
    ensures Rune(c.cur) == 32 ==> s == Some((text, Advance(c)))
    ensures c.cur == [] ==> s == None
    ensures c.cur != [] && Rune(c.cur) != 32 ==>
      MoreText(text + EncodeRune(Rune(c.cur)), s, KvParse.UntilSpace(Advance(c)))
  {
    UntilSpaceIs(c);
    EndOrNot(c);
    hide Rune, Advance, EncodeRune, KvParse.UntilSpace;
    if c.cur != [] && Rune(c.cur) != 32 {
      hide MoreText;
      MoreStep(text, s, EncodeRune(Rune(c.cur)), KvParse.UntilSpace(Advance(c)), KvParse.UntilSpace(c));
    } else if Rune(c.cur) == 32 {
      MoreEnd(text, s, Advance(c));
    }
  }

  lemma BareLineStep(text: seq<byte>, s: Option<(seq<byte>, Cursor)>, c: Cursor)
    requires MoreText(text, s, Some(KvParse.BareLine(c)))
    ensures c.cur == [] || Rune(c.cur) == 10 ==> s == Some((text, Advance(c)))
    ensures c.cur != [] && Rune(c.cur) != 10 ==>
      MoreText(text + EncodeRune(Rune(c.cur)), s, Some(KvParse.BareLine(Advance(c))))
    ensures c.cur != [] ==> text + EncodeRune(Rune(c.cur)) != []
  {
    if c.cur != [] && Rune(c.cur) != 10 {
      hide Rune, Advance, EncodeRune, MoreText;
      MoreStep(text, s, EncodeRune(Rune(c.cur)), Some(KvParse.BareLine(Advance(c))), Some(KvParse.BareLine(c)));
    } else {
      hide Rune, Advance, MoreText;
      MoreEnd(text, s, Advance(c));
    }
  }

  lemma AdvanceAtEnd(c: Cursor)
    ensures c.cur == [] ==> Advance(c) == c
  {
  }
}
