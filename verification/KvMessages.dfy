/** Whole messages and whole sources in the key=value format: printing and parsing are inverse. */
module KvMessages {

  import opened Wrappers
  import opened Bits
  import opened Utf8
  import opened Tokens
  import opened Messages
  import opened Symbols
  import opened KvText
  import opened KvParse
  import opened KvTokens
  import opened KvRoundTrip
  import Seqs
  import D = Decimals

  // ---------------------------------------------------------------------------------------------
  // Timestamp and session
  // ---------------------------------------------------------------------------------------------

  predicate NoSpace(s: seq<byte>) {
    forall i | 0 <= i < |s| :: s[i] != SPACE
  }

  lemma HeadIsNoSpace(s: seq<byte>)
    requires s != [] && NoSpace(s)
    ensures Rune(s) != 32
  {
    RuneOfHead(s);
    hide Rune;
  }

  /** What a character is does not depend on what stands behind it from an ASCII character on. */
  lemma RuneBeforeAscii(s: seq<byte>, b: byte, t: seq<byte>)
    requires s != [] && b < 0x80
    ensures DecodeRune(s + ([b] + t)) == DecodeRune(s)
  {
    var u := s + ([b] + t);
    assert u[|s|] == b && forall i | 0 <= i < |s| :: u[i] == s[i];
  }

  lemma RewrittenStep(s: seq<byte>, b: byte, t: seq<byte>)
    requires s != [] && b < 0x80
    ensures var u := s + ([b] + t); var w := Width(s);
            && Rune(u) == Rune(s) && Width(u) == w <= |s| && u[w..] == s[w..] + ([b] + t)
            && Rewritten(s) == EncodeRune(Rune(s)) + Rewritten(s[w..])
  {
    RuneBeforeAscii(s, b, t);
    hide DecodeRune, EncodeRune;
    DropInside(s, [b] + t, Width(s));
  }

  /** Text without spaces is read up to the space behind it, and comes back exactly if it is legal. */
  lemma {:induction false} UntilSpaceReads(c: Cursor, s: seq<byte>, t: seq<byte>)
    requires c.cur == s + ([SPACE] + t) && NoSpace(s)
    ensures UntilSpace(c).Some? && UntilSpace(c).value.0 == Rewritten(s) && UntilSpace(c).value.1.cur == t
    ensures UntilSpace(c).value.0 == s <==> ValidUtf8(s)
    decreases |s|
  {
    UntilSpaceIs(c);
    RewrittenIs(s);
    if s == [] {
      assert c.cur == [SPACE] + t;
      Ascii32(c, t);
    } else {
      HeadIsNoSpace(s);
      RewrittenStep(s, SPACE, t);
      assert NoSpace(s[Width(s)..]);
      hide Rune, Width, EncodeRune, ValidUtf8, UntilSpace, NoSpace, Rewritten;
      UntilSpaceReads(Advance(c), s[Width(s)..], t);
    }
  }

  /** The loops that look for a space end exactly if there is one. */
  lemma {:induction false} EndlessWithoutSpace(c: Cursor)
    ensures UntilSpace(c) == None <==> NoSpace(c.cur)
    decreases |c.cur|
  {
    UntilSpaceIs(c);
    if c.cur != [] {
      if c.cur[0] == SPACE {
        RuneOfHead(c.cur);
        assert !NoSpace(c.cur);
      } else {
        PassedBytes(c.cur);
        NoSpaceSplits(c.cur, Width(c.cur));
        hide Rune, Width, UntilSpace, NoSpace;
        EndlessWithoutSpace(Advance(c));
      }
    }
  }

  lemma NoSpaceSplits(s: seq<byte>, w: nat)
    requires w <= |s|
    ensures NoSpace(s) <==> NoSpace(s[..w]) && NoSpace(s[w..])
  {
    assert s == s[..w] + s[w..];
  }

  lemma PassedBytes(s: seq<byte>)
    requires s != [] && s[0] != SPACE
    ensures NoSpace(s[..Width(s)]) && Rune(s) != 32
  {
    RuneOfHead(s);
    if s[0] >= 0x80 {
      HighBytes(s);
    }
    hide Rune;
  }

  /** A label as the parser needs it. */
  ghost predicate StampOk(n: Notations, t: Interval) {
    var s := n.stamp(t);
    s != [] && s[0] == 64 && ValidUtf8(s[1..]) && NoSpace(s[1..]) && NEWLINE !in s && n.unstamp(s) == Some(t)
  }

  lemma StampReads(k: Parser, m: Message, c: Cursor, ts: Interval, t: seq<byte>)
    requires StampOk(k.n, ts) && c.cur == k.n.stamp(ts) + ([SPACE] + t)
    ensures Stamped(k, m, c).Some? && Stamped(k, m, c).value.0 == m.(timestamp := Some(ts))
    ensures Stamped(k, m, c).value.1.cur == t
  {
    var s := k.n.stamp(ts);
    assert s == [64] + s[1..];
    Seqs.Assoc([64], s[1..], [SPACE] + t);
    Ascii(c, 64, s[1..] + ([SPACE] + t));
    hide Rune, Advance, ValidUtf8, NoSpace, UntilSpace, Rewritten;
    UntilSpaceReads(Advance(c), s[1..], t);
  }

  /** A session that the loop can find the end of. */
  ghost predicate SessionOk(session: Option<seq<byte>>) {
    session.Some? ==> session.value != [] && NoSpace(session.value)
  }

  /** What becomes of it. */
  function SessionBack(session: Option<seq<byte>>): Option<seq<byte>> {
    if session.Some? then Some(Rewritten(session.value)) else None
  }

  /** Behind the space after the timestamp. */
  lemma SessionReads(m: Message, c: Cursor, session: Option<seq<byte>>, t: seq<byte>)
    requires SessionOk(session) && m.session == None && (session == None ==> Rune(t) != 92)
    requires c.cur == if session.Some? then [BACKSLASH] + (session.value + ([SPACE] + t)) else t
    ensures Session(m, c).Some? && Session(m, c).value.Good?
    ensures Session(m, c).value.value == m.(session := SessionBack(session)) && Session(m, c).value.rest.cur == t
  {
    if session.Some? {
      var s := session.value;
      Ascii(c, BACKSLASH, s + ([SPACE] + t));
      hide Rune, Advance, ValidUtf8, NoSpace, UntilSpace, Rewritten;
      UntilSpaceReads(Advance(c), s, t);
    }
  }

  // ---------------------------------------------------------------------------------------------
  // A message
  // ---------------------------------------------------------------------------------------------

  /** The messages that the format keeps, up to the encoding of their session. */
  ghost predicate Shaped(letter: int -> bool, digit: int -> bool, n: Notations, m: Message) {
    && m.version == 1 && m.unknown == []
    && m.timestamp.Some? && StampOk(n, m.timestamp.value)
    && m.typ.Some? && m.typ.value <= 4
    && SessionOk(m.session)
    && TagsOk(letter, digit, m.tags) && PairsOk(letter, digit, m.attributes)
    && (m.tags != [] || m.attributes != [])
  }

  predicate LegalSession(m: Message) {
    m.session.Some? ==> ValidUtf8(m.session.value)
  }

  /** A message as it comes back. */
  function Back(m: Message): Message {
    m.(session := SessionBack(m.session))
  }

  lemma BackIs(m: Message)
    ensures Back(m) == m <==> LegalSession(m)
  {
    if m.session.Some? { RewrittenIs(m.session.value); }
    hide Rewritten, ValidUtf8;
  }

  /** Tags and pairs as printed. */
  function Tail(n: Notations, m: Message): seq<byte>
    requires PairsText(n, 1, m.attributes).Some?
  {
    TagsText(m.tags) + PairsText(n, 1, m.attributes).value
  }

  lemma RestIs(k: Parser, m: Message, c: Cursor)
    ensures var r := if Rune(c.cur) == 91 then Tags(k.f, Advance(c), []) else Good([], c);
            r.Good? && Pairs(k, r.rest, []).Good? ==>
              Rest(k, m, c) ==
                Good(m.(tags := r.value, attributes := Pairs(k, r.rest, []).value), Pairs(k, r.rest, []).rest)
  {
    hide Rune, Tags, Pairs, Advance;
  }

  lemma TagsTextIs(s: seq<Tag>)
    ensures s != [] ==> TagsText(s) == [SPACE, 91] + TagListText(s) + [93]
    ensures s == [] ==> TagsText(s) == []
  {
    hide TagListText;
  }

  lemma TagsShape(list: seq<byte>, pairs: seq<byte>, t: seq<byte>)
    ensures var tail := ([SPACE, 91] + list + [93]) + pairs;
            tail != [] && tail == [SPACE] + tail[1..] && tail[1..] + t == [91] + (list + ([93] + (pairs + t)))
  {
    var tail := ([SPACE, 91] + list + [93]) + pairs;
    assert tail == [SPACE] + ([91] + (list + ([93] + pairs)));
    assert tail[1..] == [91] + (list + ([93] + pairs));
  }

  /** Behind the space before tags and pairs. */
  lemma RestReads(
    letter: int -> bool, digit: int -> bool, k: Parser, m0: Message, c: Cursor, m: Message, t: seq<byte>)
    requires k.f == KvConfig(letter, digit) && LineEnd(t)
    requires TagsOk(letter, digit, m.tags) && PairsOk(letter, digit, m.attributes)
    requires m.tags != [] || m.attributes != []
    requires PairsText(k.n, 1, m.attributes).Some? && Tail(k.n, m) != [] && c.cur == Tail(k.n, m)[1..] + t
    ensures Rune(c.cur) != 92
    ensures var r := Rest(k, m0, c);
            r.Good? && r.value == m0.(tags := m.tags, attributes := m.attributes) && r.rest.cur == t
  {
    var pairs := PairsText(k.n, 1, m.attributes).value;
    TagsTextIs(m.tags);
    RestIs(k, m0, c);
    if m.tags == [] {
      assert Tail(k.n, m) == pairs;
      hide *;
      PairsAfterSpace(letter, digit, k, c, m.attributes, [], t);
      assert [] + m.attributes == m.attributes;
    } else {
      TagsShape(TagListText(m.tags), pairs, t);
      hide *;
      var list := TagListText(m.tags);
      Ascii(c, 91, list + ([93] + (pairs + t)));
      TagsRead(letter, digit, Advance(c), m.tags, [], pairs + t);
      PairsRead(letter, digit, k, Tags(k.f, Advance(c), []).rest, m.attributes, [], t);
      assert [] + m.tags == m.tags && [] + m.attributes == m.attributes;
    }
  }

  lemma TailShape(letter: int -> bool, digit: int -> bool, n: Notations, m: Message)
    requires PairsOk(letter, digit, m.attributes) && (m.tags != [] || m.attributes != [])
    ensures PairsText(n, 1, m.attributes).Some?
    ensures Tail(n, m) != [] && Tail(n, m) == [SPACE] + Tail(n, m)[1..]
  {
    PairsPrint(letter, digit, n, m.attributes);
    hide PairsOk, PairsText, TagListText;
    if m.tags == [] {
      assert Tail(n, m) == PairsText(n, 1, m.attributes).value;
      PairsHead(letter, digit, n, m.attributes);
    } else {
      TagsShape(TagListText(m.tags), PairsText(n, 1, m.attributes).value, []);
    }
  }

  lemma PairsHead(letter: int -> bool, digit: int -> bool, n: Notations, s: seq<Attribute>)
    requires s != [] && PairsText(n, 1, s).Some?
    ensures PairsText(n, 1, s).value != [] && PairsText(n, 1, s).value[0] == SPACE
  {
    hide StringKey, ValueText;
  }

  /** The flag and the space behind it. */
  lemma FlagReads(c: Cursor, typ: nat, t: seq<byte>)
    requires typ <= 4 && c.cur == TypeText(Some(typ)) + t
    ensures var flag := TypeFlag(Rune(c.cur)); var d := if flag.Some? then Advance(c) else c;
            (if flag.Some? then flag else Some(LOG)) == Some(typ) && Rune(d.cur) == 32 && Advance(d).cur == t
    ensures c.cur != []
  {
    if typ == LOG {
      Ascii32(c, t);
    } else {
      var b := TypeText(Some(typ))[0];
      assert TypeText(Some(typ)) == [b, SPACE];
      assert c.cur == [b] + ([SPACE] + t);
      Ascii(c, b, [SPACE] + t);
      Ascii32(Advance(c), t);
    }
    hide Rune, Advance;
  }

  lemma HeadIs(k: Parser, c: Cursor)
    ensures var flag := TypeFlag(Rune(c.cur)); var d := if flag.Some? then Advance(c) else c;
            var m := NewLog(k.now).(typ := if flag.Some? then flag else Some(LOG));
            var s := Stamped(k, m, Advance(d));
            Rune(d.cur) == 32 && s.Some? ==> Head(k, c) == Session(s.value.0, s.value.1)
  {
    hide Rune, Advance, Stamped, Session, TypeFlag;
  }

  /** Flag, timestamp and session; `t` starts behind the space before tags and pairs. */
  lemma HeadReads(k: Parser, c: Cursor, m: Message, t: seq<byte>)
    requires m.timestamp.Some? && StampOk(k.n, m.timestamp.value)
    requires m.typ.Some? && m.typ.value <= 4 && SessionOk(m.session) && Rune(t) != 92
    requires c.cur == TypeText(m.typ) + (k.n.stamp(m.timestamp.value) + (SessionText(m.session) + ([SPACE] + t)))
    ensures c.cur != []
    ensures var r := Head(k, c);
      && r.Some? && r.value.Good? && r.value.rest.cur == t
      && r.value.value == NewLog(k.now).(typ := m.typ, timestamp := m.timestamp, session := SessionBack(m.session))
  {
    SessionTextIs(m.session, t);
    var stamp := k.n.stamp(m.timestamp.value);
    var u := if m.session.Some? then [BACKSLASH] + (m.session.value + ([SPACE] + t)) else t;
    var m0 := NewLog(k.now).(typ := m.typ);
    FlagReads(c, m.typ.value, stamp + ([SPACE] + u));
    HeadIs(k, c);
    hide Rune, Advance, Stamped, Session, TypeFlag, StampOk, SessionOk, SessionText, TypeText, Head, SessionBack;
    var d := if TypeFlag(Rune(c.cur)).Some? then Advance(c) else c;
    StampReads(k, m0, Advance(d), m.timestamp.value, u);
    SessionReads(m0.(timestamp := m.timestamp), Stamped(k, m0, Advance(d)).value.1, m.session, t);
  }

  lemma SessionTextIs(session: Option<seq<byte>>, t: seq<byte>)
    requires SessionOk(session)
    ensures SessionText(session) + ([SPACE] + t)
         == [SPACE] + if session.Some? then [BACKSLASH] + (session.value + ([SPACE] + t)) else t
  {
    hide ValidUtf8;
    if session.Some? {
      assert [SPACE, BACKSLASH] + session.value + ([SPACE] + t)
          == [SPACE] + ([BACKSLASH] + (session.value + ([SPACE] + t)));
    } else {
      assert [] + ([SPACE] + t) == [SPACE] + t;
    }
  }

  lemma KvStringIs(n: Notations, m: Message, t: seq<byte>)
    requires m.timestamp.Some? && m.version == 1 && PairsText(n, 1, m.attributes).Some? && Tail(n, m) != []
    requires Tail(n, m) == [SPACE] + Tail(n, m)[1..]
    ensures KvString(n, m).Some?
    ensures var tail := SessionText(m.session) + ([SPACE] + (Tail(n, m)[1..] + t));
            KvString(n, m).value + t == [62] + (TypeText(m.typ) + (n.stamp(m.timestamp.value) + tail))
  {
    hide PairsText, TagsText, TypeText, SessionText;
    var ts, stamp, ss := TypeText(m.typ), n.stamp(m.timestamp.value), SessionText(m.session);
    Shape(ts, stamp, ss, TagsText(m.tags), PairsText(n, 1, m.attributes).value, Tail(n, m)[1..], t);
  }

  lemma Shape(
    ts: seq<byte>, stamp: seq<byte>, ss: seq<byte>, tags: seq<byte>, pairs: seq<byte>, tail: seq<byte>, t: seq<byte>)
    requires tags + pairs == [SPACE] + tail
    ensures [62] + ts + stamp + ss + tags + pairs + t == [62] + (ts + (stamp + (ss + ([SPACE] + (tail + t)))))
  {
    Seqs.Assoc([62] + ts + stamp + ss, tags, pairs);
    Seqs.Assoc([62] + ts + stamp + ss, [SPACE] + tail, t);
    Seqs.Assoc([SPACE], tail, t);
    Seqs.Assoc([62] + ts + stamp, ss, [SPACE] + (tail + t));
    Seqs.Assoc([62] + ts, stamp, ss + ([SPACE] + (tail + t)));
    Seqs.Assoc([62], ts, stamp + (ss + ([SPACE] + (tail + t))));
  }

  lemma ShapedIs(letter: int -> bool, digit: int -> bool, k: Parser, m: Message)
    requires Shaped(letter, digit, k.n, m)
    ensures m.timestamp.Some? && StampOk(k.n, m.timestamp.value)
    ensures m.typ.Some? && m.typ.value <= 4 && SessionOk(m.session) && m.version == 1
    ensures TagsOk(letter, digit, m.tags) && PairsOk(letter, digit, m.attributes)
    ensures m.tags != [] || m.attributes != []
    ensures var head := NewLog(k.now).(typ := m.typ, timestamp := m.timestamp, session := SessionBack(m.session));
            head.(tags := m.tags, attributes := m.attributes) == Back(m)
  {
    hide StampOk, SessionOk, TagsOk, PairsOk, SessionBack;
  }

  lemma LineIs(k: Parser, c: Cursor)
    requires Head(k, c).Some? && Head(k, c).value.Good?
    ensures var h := Head(k, c).value; var r := Rest(k, h.value, h.rest);
            c.cur != [] && r.Good? ==> Line(k, c) == Parsed(r.value, r.rest)
    ensures c.cur != [] && Rune(c.cur) == 62 ==> Generate(k, c) == Line(k, Advance(c))
  {
    hide Head, Rest, Rune, Advance;
  }

  lemma GenerateIs(k: Parser, c: Cursor)
    ensures c.cur == [] ==> Generate(k, c) == End(c)
    ensures c.cur != [] && Rune(c.cur) == 62 ==> Generate(k, c) == Line(k, Advance(c))
    ensures c.cur != [] && Rune(c.cur) != 62 && !k.bare && SkipToStart(c).0 ==>
      Generate(k, c) == Line(k, SkipToStart(c).1)
    ensures c.cur != [] && Rune(c.cur) != 62 && !k.bare && !SkipToStart(c).0 ==>
      Generate(k, c) == End(SkipToStart(c).1)
    ensures c.cur != [] && Rune(c.cur) != 62 && k.bare ==> Generate(k, c) == ReadBare(k, c)
  {
    hide Line, Rune, Advance, SkipToStart, ReadBare;
  }

  /** Behind its `>`, a printed message is read up to the end of its line. */
  lemma LineReads(letter: int -> bool, digit: int -> bool, k: Parser, c: Cursor, m: Message, t: seq<byte>)
    requires k.f == KvConfig(letter, digit) && Shaped(letter, digit, k.n, m) && LineEnd(t)
    requires KvString(k.n, m).Some? ==> KvString(k.n, m).value != [] && KvString(k.n, m).value + t == [62] + c.cur
    ensures KvString(k.n, m).Some?
    ensures Line(k, c).Parsed? && Line(k, c).m == Back(m) && Line(k, c).rest.cur == t
  {
    ShapedIs(letter, digit, k, m);
    hide *;
    TailShape(letter, digit, k.n, m);
    KvStringIs(k.n, m, t);
    var tail := Tail(k.n, m)[1..] + t;
    var x := TypeText(m.typ) + (k.n.stamp(m.timestamp.value) + (SessionText(m.session) + ([SPACE] + tail)));
    SameTail(c.cur, x);
    var e := Cursor(tail, 0, 0, 0, 0);
    RestReads(letter, digit, k, m, e, m, t);
    HeadReads(k, c, m, tail);
    var h := Head(k, c).value;
    RestReads(letter, digit, k, h.value, h.rest, m, t);
    LineIs(k, c);
  }

  lemma SameTail(a: seq<byte>, b: seq<byte>)
    requires [62] + a == [62] + b
    ensures a == b
  {
    assert ([62] + a)[1..] == a && ([62] + b)[1..] == b;
  }

  // ---------------------------------------------------------------------------------------------
  // Sources
  // ---------------------------------------------------------------------------------------------

  /** A printed message is read up to the end of its line, and is itself again exactly if its session is legal
      UTF-8. */
  lemma MessageReads(letter: int -> bool, digit: int -> bool, k: Parser, c: Cursor, m: Message, t: seq<byte>)
    requires k.f == KvConfig(letter, digit) && Shaped(letter, digit, k.n, m) && LineEnd(t)
    requires KvString(k.n, m).Some? ==> c.cur == KvString(k.n, m).value + t
    ensures KvString(k.n, m).Some?
    ensures Generate(k, c).Parsed? && Generate(k, c).m == Back(m) && Generate(k, c).rest.cur == t
    ensures Generate(k, c).m == m <==> LegalSession(m)
  {
    Starts(letter, digit, k, m, t);
    hide *;
    var x := KvString(k.n, m).value + t;
    assert x == [62] + x[1..];
    Ascii(c, 62, x[1..]);
    LineReads(letter, digit, k, Advance(c), m, t);
    GenerateIs(k, c);
    BackIs(m);
  }

  lemma Starts(letter: int -> bool, digit: int -> bool, k: Parser, m: Message, t: seq<byte>)
    requires Shaped(letter, digit, k.n, m)
    ensures KvString(k.n, m).Some? && KvString(k.n, m).value != []
    ensures var x := KvString(k.n, m).value + t; x != [] && x[0] == 62
  {
    ShapedIs(letter, digit, k, m);
    hide *;
    TailShape(letter, digit, k.n, m);
    KvStringIs(k.n, m, []);
    KvStringIs(k.n, m, t);
    assert KvString(k.n, m).value + [] == KvString(k.n, m).value;
  }

  ghost predicate AllShaped(letter: int -> bool, digit: int -> bool, n: Notations, ms: seq<Message>) {
    forall m | m in ms :: Shaped(letter, digit, n, m)
  }

  function BackAll(ms: seq<Message>): (r: seq<Message>)
    ensures |r| == |ms|
  {
    if ms == [] then [] else [Back(ms[0])] + BackAll(ms[1..])
  }

  predicate AllLegal(ms: seq<Message>) {
    forall m | m in ms :: LegalSession(m)
  }

  lemma {:induction false} BackAllIs(ms: seq<Message>)
    ensures BackAll(ms) == ms <==> AllLegal(ms)
    decreases |ms|
  {
    hide Back, LegalSession;
    if ms != [] {
      BackIs(ms[0]);
      BackAllIs(ms[1..]);
      assert ms == [ms[0]] + ms[1..];
      assert BackAll(ms)[0] == Back(ms[0]) && BackAll(ms)[1..] == BackAll(ms[1..]);
    }
  }

  /** What `KVEncoder` writes: each message and a newline. */
  function LinesText(n: Notations, ms: seq<Message>): Option<seq<byte>> {
    if ms == [] then Some([])
    else match KvString(n, ms[0])
         case None => None
         case Some(head) =>
           match LinesText(n, ms[1..])
           case None => None
           case Some(rest) => Some(head + ([NEWLINE] + rest))
  }

  lemma ShapedTail(letter: int -> bool, digit: int -> bool, n: Notations, ms: seq<Message>)
    requires AllShaped(letter, digit, n, ms) && ms != []
    ensures Shaped(letter, digit, n, ms[0]) && AllShaped(letter, digit, n, ms[1..])
  {
    hide Shaped;
  }

  lemma {:induction false} LinesPrint(letter: int -> bool, digit: int -> bool, k: Parser, ms: seq<Message>)
    requires AllShaped(letter, digit, k.n, ms)
    ensures LinesText(k.n, ms).Some? && (ms != [] ==> KvString(k.n, ms[0]).Some?)
    ensures ms == [] ==> LinesText(k.n, ms).value == []
    ensures ms != [] ==> LinesText(k.n, ms[1..]).Some?
    ensures ms != [] ==> LinesText(k.n, ms).value != [] && LinesText(k.n, ms).value[0] == 62
    ensures ms != [] ==>
      LinesText(k.n, ms).value == KvString(k.n, ms[0]).value + ([NEWLINE] + LinesText(k.n, ms[1..]).value)
    decreases |ms|
  {
    if ms != [] {
      ShapedTail(letter, digit, k.n, ms);
      Starts(letter, digit, k, ms[0], []);
      hide Shaped, AllShaped, KvString;
      LinesPrint(letter, digit, k, ms[1..]);
      assert KvString(k.n, ms[0]).value + [] == KvString(k.n, ms[0]).value;
    }
  }

  lemma GenerateAllIs(k: Parser, c: Cursor)
    ensures var r := Generate(k, c);
            r.Parsed? ==> GenerateAll(k, c) == ([r.m] + GenerateAll(k, r.rest).0, GenerateAll(k, r.rest).1)
    ensures !Generate(k, c).Parsed? ==> GenerateAll(k, c) == ([], Generate(k, c))
  {
    hide Generate;
  }

  lemma SkipIs(c: Cursor)
    ensures c.cur != [] && Rune(c.cur) == 10 && Rune(Advance(c).cur) == 62 ==>
      SkipToStart(c) == (true, Advance(Advance(c)))
    ensures c.cur != [] && Rune(c.cur) == 10 && Advance(c).cur == [] ==> !SkipToStart(c).0
  {
    RuneOfHead(Advance(c).cur);
    hide Rune, Advance;
  }

  /** Lines of printed messages are read in order, and then the end of the source.  `c` is at the first of them
      or at the newline before it. */
  lemma {:induction false} LinesReadBack(
    letter: int -> bool, digit: int -> bool, k: Parser, c: Cursor, ms: seq<Message>)
    requires k.f == KvConfig(letter, digit) && !k.bare && AllShaped(letter, digit, k.n, ms)
    requires LinesText(k.n, ms).Some? ==>
      c.cur == LinesText(k.n, ms).value || c.cur == [NEWLINE] + LinesText(k.n, ms).value
    ensures LinesText(k.n, ms).Some? && GenerateAll(k, c).0 == BackAll(ms) && GenerateAll(k, c).1.End?
    decreases |ms|
  {
    LinesPrint(letter, digit, k, ms);
    GenerateAllIs(k, c);
    if ms == [] {
      SourceEnds(k, c);
    } else {
      ShapedTail(letter, digit, k.n, ms);
      BackAllStep(ms);
      hide *;
      var rest := LinesText(k.n, ms[1..]).value;
      LineStarts(letter, digit, k, c, ms[0], [NEWLINE] + rest);
      var d := Generate(k, c).rest;
      LinesReadBack(letter, digit, k, d, ms[1..]);
    }
  }

  lemma BackAllStep(ms: seq<Message>)
    requires ms != []
    ensures BackAll(ms) == [Back(ms[0])] + BackAll(ms[1..])
  {
  }

  /** They are the printed messages again exactly if all sessions are legal UTF-8. */
  lemma LinesRead(letter: int -> bool, digit: int -> bool, k: Parser, c: Cursor, ms: seq<Message>)
    requires k.f == KvConfig(letter, digit) && !k.bare && AllShaped(letter, digit, k.n, ms)
    requires LinesText(k.n, ms).Some? ==> c.cur == LinesText(k.n, ms).value
    ensures LinesText(k.n, ms).Some? && GenerateAll(k, c).1.End? && |GenerateAll(k, c).0| == |ms|
    ensures GenerateAll(k, c).0 == ms <==> AllLegal(ms)
  {
    hide *;
    LinesReadBack(letter, digit, k, c, ms);
    BackAllIs(ms);
  }

  lemma SourceEnds(k: Parser, c: Cursor)
    requires !k.bare && (c.cur == [] || c.cur == [NEWLINE])
    ensures Generate(k, c).End?
  {
    GenerateIs(k, c);
    SkipIs(c);
    if c.cur == [NEWLINE] {
      assert c.cur == [NEWLINE] + [];
      Ascii(c, NEWLINE, []);
    }
    hide Rune, Advance, Generate;
  }

  /** A message at the start of the source or behind a newline. */
  lemma LineStarts(letter: int -> bool, digit: int -> bool, k: Parser, c: Cursor, m: Message, t: seq<byte>)
    requires k.f == KvConfig(letter, digit) && !k.bare && Shaped(letter, digit, k.n, m) && t != [] && t[0] == NEWLINE
    requires KvString(k.n, m).Some? ==>
      c.cur == KvString(k.n, m).value + t || c.cur == [NEWLINE] + (KvString(k.n, m).value + t)
    ensures KvString(k.n, m).Some?
    ensures Generate(k, c).Parsed? && Generate(k, c).m == Back(m) && Generate(k, c).rest.cur == t
  {
    Starts(letter, digit, k, m, t);
    assert LineEnd(t);
    var x := KvString(k.n, m).value + t;
    assert NEWLINE == 10;
    hide *;
    if c.cur == x {
      MessageReads(letter, digit, k, c, m, t);
    } else {
      assert x == [62] + x[1..];
      Ascii(c, NEWLINE, x);
      Ascii(Advance(c), 62, x[1..]);
      GenerateIs(k, c);
      SkipIs(c);
      LineReads(letter, digit, k, Advance(Advance(c)), m, t);
    }
  }

  // ---------------------------------------------------------------------------------------------
  // What does not come back
  // ---------------------------------------------------------------------------------------------

  /** A source that ends inside a timestamp: `Generate` never returns. */
  lemma TimestampHangs(k: Parser, c: Cursor, t: seq<byte>)
    requires c.cur == [62, SPACE, 64] + t && NoSpace(t)
    ensures Generate(k, c) == Stuck
  {
    assert c.cur == [62] + ([SPACE] + ([64] + t));
    hide *;
    Ascii(c, 62, [SPACE] + ([64] + t));
    Ascii32(Advance(c), [64] + t);
    var d := Advance(Advance(c));
    Ascii(d, 64, t);
    EndlessWithoutSpace(Advance(d));
    StuckIs(k, Advance(c));
    GenerateIs(k, c);
  }

  /** A source that ends inside a session: the same. */
  lemma SessionHangs(k: Parser, c: Cursor, t: seq<byte>)
    requires c.cur == [62, SPACE, BACKSLASH] + t && NoSpace(t)
    ensures Generate(k, c) == Stuck
  {
    assert c.cur == [62] + ([SPACE] + ([BACKSLASH] + t));
    hide *;
    Ascii(c, 62, [SPACE] + ([BACKSLASH] + t));
    Ascii32(Advance(c), [BACKSLASH] + t);
    var d := Advance(Advance(c));
    Ascii(d, BACKSLASH, t);
    SessionIsStuck(k, Advance(c), t);
    GenerateIs(k, c);
  }

  lemma SessionIsStuck(k: Parser, c: Cursor, t: seq<byte>)
    requires Rune(c.cur) == 32 && Rune(Advance(c).cur) == 92 && Advance(Advance(c)).cur == t && NoSpace(t)
    ensures c.cur != [] && Line(k, c) == Stuck
  {
    RuneOfHead(c.cur);
    HeadHangs(k, c);
    hide Rune, Advance, Rest, Head, NoSpace;
  }

  lemma StuckIs(k: Parser, c: Cursor)
    requires Rune(c.cur) == 32 && Rune(Advance(c).cur) == 64 && UntilSpace(Advance(Advance(c))).None?
    ensures c.cur != [] && Line(k, c) == Stuck
  {
    RuneOfHead(c.cur);
    EndlessWithoutSpace(Advance(Advance(c)));
    HeadHangs(k, c);
    hide Rune, Advance, UntilSpace, Rest, Head, NoSpace;
  }

  /** Where a timestamp or a session would start, behind the flag and the space. */
  function Preamble(c: Cursor): Cursor {
    Advance(if TypeFlag(Rune(c.cur)).Some? then Advance(c) else c)
  }

  /** The place behind the timestamp, if there is one and it ends. */
  function BehindStamp(c: Cursor): Cursor {
    if Rune(c.cur) == 64 && UntilSpace(Advance(c)).Some? then UntilSpace(Advance(c)).value.1 else c
  }

  /** The head of the line has its space, and behind it a timestamp, or after that a session, that no space
      ends. */
  predicate Unended(c: Cursor) {
    var d := if TypeFlag(Rune(c.cur)).Some? then Advance(c) else c;
    var e := Preamble(c);
    && Rune(d.cur) == 32
    && ((Rune(e.cur) == 64 && NoSpace(Advance(e).cur))
        || (Rune(BehindStamp(e).cur) == 92 && NoSpace(Advance(BehindStamp(e)).cur)))
  }

  /** The head of a line is an endless loop exactly then. */
  lemma HeadHangs(k: Parser, c: Cursor)
    ensures Head(k, c).None? <==> Unended(c)
  {
    var e := Preamble(c);
    EndlessWithoutSpace(Advance(e));
    EndlessWithoutSpace(Advance(BehindStamp(e)));
    hide Rune, Advance, UntilSpace, NoSpace, TypeFlag;
  }

  /** Where `Generate` begins to read a line, if it comes to one. */
  function Attempt(k: Parser, c: Cursor): Option<Cursor> {
    if c.cur == [] then None
    else if Rune(c.cur) == 62 then Some(Advance(c))
    else if k.bare || !SkipToStart(c).0 then None
    else Some(SkipToStart(c).1)
  }

  /** Where it starts again when the line at `c` turns out to be none. */
  function Restart(k: Parser, c: Cursor): (r: Option<Cursor>)
    ensures r.Some? ==> |r.value.cur| <= |c.cur|
  {
    match Head(k, c)
    case Some(Bad(rest)) => Some(rest)
    case Some(Good(m, rest)) =>
      (match Rest(k, m, rest)
       case Bad(rest') => Some(SkipToNewline(k.f, rest'))
       case _ => None)
    case _ => None
  }

  lemma AttemptIs(k: Parser, c: Cursor)
    ensures Attempt(k, c).Some? ==>
      |Attempt(k, c).value.cur| < |c.cur| && Generate(k, c) == Line(k, Attempt(k, c).value)
    ensures Attempt(k, c).None? ==> Generate(k, c) != Stuck
  {
    RuneOfHead(c.cur);
    hide Rune, Advance, Line, SkipToStart, ReadBare;
    if Attempt(k, c).None? && k.bare { ReadBareReturns(k, c); }
  }

  lemma {:induction false} ReadBareReturns(k: Parser, c: Cursor)
    ensures ReadBare(k, c) != Stuck
    decreases |c.cur|
  {
    hide BareLine;
    if BareLine(c).0 == [] && c.cur != [] { ReadBareReturns(k, BareLine(c).1); }
  }

  lemma RestartIs(k: Parser, c: Cursor)
    ensures c.cur == [] ==> Line(k, c) != Stuck
    ensures c.cur != [] && Head(k, c).None? ==> Line(k, c) == Stuck
    ensures c.cur != [] && Head(k, c).Some? && Restart(k, c).Some? ==> Line(k, c) == Generate(k, Restart(k, c).value)
    ensures c.cur != [] && Head(k, c).Some? && Restart(k, c).None? ==> Line(k, c) != Stuck
  {
    hide Head, Rest, SkipToNewline, Generate;
  }

  /** Some line that `Generate` tries, after any number of restarts, has an unended timestamp or session. */
  predicate ComesToUnended(k: Parser, c: Cursor)
    decreases |c.cur|
  {
    AttemptIs(k, c);
    var l := Attempt(k, c);
    l.Some? && l.value.cur != [] &&
    (Unended(l.value) || (Restart(k, l.value).Some? && ComesToUnended(k, Restart(k, l.value).value)))
  }

  /** When `Generate` never returns, for every source and place in it. */
  lemma {:induction false} StuckExactly(k: Parser, c: Cursor)
    ensures Generate(k, c) == Stuck <==> ComesToUnended(k, c)
    decreases |c.cur|
  {
    AttemptIs(k, c);
    hide Generate, Line, Attempt, Restart, Unended, Head;
    if Attempt(k, c).Some? {
      var l := Attempt(k, c).value;
      RestartIs(k, l);
      HeadHangs(k, l);
      if Restart(k, l).Some? { StuckExactly(k, Restart(k, l).value); }
      UnendedIsNoRestart(k, l);
    }
  }

  lemma UnendedIsNoRestart(k: Parser, c: Cursor)
    ensures Head(k, c).None? ==> Restart(k, c).None?
  {
  }

  /** A negative integer is printed with a sign, and the sign is no value. */
  lemma NegativeIsBad(letter: int -> bool, digit: int -> bool, k: Parser, c: Cursor, a: Attribute, x: int, t: seq<byte>)
    requires k.f == KvConfig(letter, digit) && x < 0 && c.cur == FormatInt(x) + t
    ensures PairValue(k, c, a).Bad?
  {
    Seqs.Assoc([45], D.Decimal(-x), t);
    Ascii(c, 45, D.Decimal(-x) + t);
    hide Rune, Advance, D.Decimal;
    ScanHere(letter, digit, c);
    MinusIs(letter, digit, c);
  }

  lemma MinusIs(letter: int -> bool, digit: int -> bool, c: Cursor)
    requires Rune(c.cur) == 45
    ensures TokenAt(KvConfig(letter, digit), c).0 == 45
  {
    hide Rune, Advance;
  }

  // ---------------------------------------------------------------------------------------------
  // Bare lines
  // ---------------------------------------------------------------------------------------------

  /** `AddString("message", text)` on a new message. */
  function BareMessage(k: Parser, text: seq<byte>): Message {
    NewLog(k.now).(attributes := [Keyed([109, 101, 115, 115, 97, 103, 101]).(sval := Some(text))])
  }

  /** With `Bare` set, the parser stops in front of the newline behind a message and takes the next line as
      bare text, a message or not. */
  lemma BareTakesNextLine(k: Parser, c: Cursor, line: seq<byte>)
    requires k.bare && c.cur == [NEWLINE] + line && line != [] && Rune(line) != 10
    ensures var r := Generate(k, c); var d := Advance(c);
            d.cur == line && r == Parsed(BareMessage(k, BareLine(d).0), BareLine(d).1)
  {
    Ascii(c, NEWLINE, line);
    BareLineIs(c);
    BareLineIs(Advance(c));
    GenerateIs(k, c);
    hide Rune, Advance, Keyed, BareLine, EncodeRune;
    assert ReadBare(k, c) == ReadBare(k, Advance(c));
  }

  /** The text of a bare line, rewritten character by character. */
  lemma {:induction false} BareReads(c: Cursor, s: seq<byte>, t: seq<byte>)
    requires c.cur == s + ([NEWLINE] + t) && NEWLINE !in s
    ensures BareLine(c).0 == Rewritten(s) && BareLine(c).1.cur == t
    decreases |s|
  {
    BareLineIs(c);
    if s == [] {
      assert c.cur == [NEWLINE] + t;
      Ascii(c, NEWLINE, t);
    } else {
      RuneOfHead(s);
      RewrittenStep(s, NEWLINE, t);
      assert NEWLINE !in s[Width(s)..];
      hide Rune, Width, EncodeRune, Rewritten, BareLine;
      BareReads(Advance(c), s[Width(s)..], t);
    }
  }

  lemma BareEnds(k: Parser, c: Cursor)
    requires k.bare && (c.cur == [] || c.cur == [NEWLINE])
    ensures Generate(k, c).End?
  {
    GenerateIs(k, c);
    if c.cur == [NEWLINE] {
      assert c.cur == [NEWLINE] + [];
      Ascii(c, NEWLINE, []);
      BareLineIs(c);
      BareLineIs(Advance(c));
      hide Rune, Advance, BareLine, Generate;
      assert ReadBare(k, c) == ReadBare(k, Advance(c));
    }
  }

  lemma {:induction false} QuotedLines(v: seq<byte>)
    requires Clean(v)
    ensures NEWLINE !in v && Quoted(v) == v
    decreases |v|
  {
    CleanHasNoQuotes(v);
    QuotedIs(v);
    CleanHasNoNewline(v);
  }

  lemma {:induction false} CleanHasNoNewline(v: seq<byte>)
    requires Clean(v)
    ensures NEWLINE !in v
    decreases |v|
  {
    if v != [] {
      if v[0] == BACKSLASH && v[1] == BACKSLASH {
        CleanHasNoNewline(v[2..]);
        assert v == [v[0], v[1]] + v[2..];
      } else {
        CleanHasNoNewline(v[1..]);
        assert v == [v[0]] + v[1..];
      }
    }
  }

  lemma MessageKey()
    ensures Keyed([109, 101, 115, 115, 97, 103, 101]) == ZERO_ATTRIBUTE.(key := 1)
    ensures NameOf(V1, 1) == Some([109, 101, 115, 115, 97, 103, 101])
  {
    V1Distinct();
    NumberRoundTrip(V1, 1);
  }

  /** What a message prints that could have been a bare line. */
  lemma BareMessagePrints(n: Notations, k: Parser, text: seq<byte>)
    requires StampOk(n, k.now) && Clean(text)
    ensures var m := BareMessage(k, text);
            KvString(n, m).Some? && NEWLINE !in KvString(n, m).value && |KvString(n, m).value| > |text|
  {
    hide Keyed, FindIn, V1, StampOk, Quoted, Clean, NameOf, PairsText;
    MessageKey();
    BarePairs(n, text);
    StampHasNoNewline(n, k.now);
  }

  /** Its one attribute. */
  lemma BarePairs(n: Notations, text: seq<byte>)
    requires Clean(text)
    ensures var pairs := PairsText(n, 1, [ZERO_ATTRIBUTE.(key := 1, sval := Some(text))]);
            pairs.Some? && NEWLINE !in pairs.value && |pairs.value| > |text|
  {
    MessageKey();
    QuotedLines(text);
    hide Keyed, FindIn, V1, Quoted, Clean, NameOf;
    var a := ZERO_ATTRIBUTE.(key := 1, sval := Some(text));
    assert [a][1..] == [] && PairsText(n, 1, [a][1..]) == Some([]);
    PairsTextIs(n, [a], a);
  }

  lemma StampHasNoNewline(n: Notations, t: Interval)
    requires StampOk(n, t)
    ensures NEWLINE !in n.stamp(t)
  {
  }

  lemma BareIsShaped(letter: int -> bool, digit: int -> bool, k: Parser, text: seq<byte>)
    requires Shaped(letter, digit, k.n, BareMessage(k, text))
    ensures StampOk(k.n, k.now) && Clean(text)
  {
    MessageKey();
    hide StampOk, Clean, Keyed;
    var m := BareMessage(k, text);
    assert m.attributes[0] in m.attributes;
  }

  /** The message that the next line is taken for is not the message that was printed there. */
  lemma BareDiffers(letter: int -> bool, digit: int -> bool, k: Parser, c: Cursor, m: Message, t: seq<byte>)
    requires Shaped(letter, digit, k.n, m) && KvString(k.n, m).Some?
    requires c.cur == KvString(k.n, m).value + ([NEWLINE] + t)
    ensures BareMessage(k, BareLine(c).0) != m
  {
    var text := BareLine(c).0;
    if m == BareMessage(k, text) {
      BareIsShaped(letter, digit, k, text);
      BareMessagePrints(k.n, k, text);
      hide *;
      var line := KvString(k.n, m).value;
      BareReads(c, line, t);
      RewrittenIs(line);
    }
  }

  /** The first two messages. */
  lemma BareTwo(letter: int -> bool, digit: int -> bool, k: Parser, c: Cursor, ms: seq<Message>)
    requires k.f == KvConfig(letter, digit) && k.bare && AllShaped(letter, digit, k.n, ms) && |ms| >= 2
    requires LinesText(k.n, ms).Some? ==> c.cur == LinesText(k.n, ms).value
    ensures GenerateAll(k, c).0 != ms
  {
    LinesPrint(letter, digit, k, ms);
    LinesPrint(letter, digit, k, ms[1..]);
    ShapedTail(letter, digit, k.n, ms);
    ShapedTail(letter, digit, k.n, ms[1..]);
    NewlineEndsLine(LinesText(k.n, ms[1..]).value);
    var rest, more := LinesText(k.n, ms[1..]).value, LinesText(k.n, ms[1..][1..]).value;
    RuneOfHead(rest);
    assert rest[0] == 62;
    hide *;
    MessageReads(letter, digit, k, c, ms[0], [NEWLINE] + rest);
    var d := Generate(k, c).rest;
    BareTakesNextLine(k, d, rest);
    BareDiffers(letter, digit, k, Advance(d), ms[1..][0], more);
    GenerateAllIs(k, c);
    GenerateAllIs(k, d);
    assert ms[1..][0] == ms[1];
    SecondIs(Generate(k, c).m, Generate(k, d).m, GenerateAll(k, Generate(k, d).rest).0);
  }

  lemma NewlineEndsLine(t: seq<byte>)
    ensures LineEnd([NEWLINE] + t)
  {
  }

  lemma SecondIs<T>(a: T, b: T, s: seq<T>)
    ensures ([a] + ([b] + s))[1] == b
  {
  }

  /** When printed lines come back with `Bare` set or not: all sessions must be legal, and with `Bare` set
      there can be only one message. */
  lemma BareExactly(letter: int -> bool, digit: int -> bool, k: Parser, c: Cursor, ms: seq<Message>)
    requires k.f == KvConfig(letter, digit) && AllShaped(letter, digit, k.n, ms)
    requires LinesText(k.n, ms).Some? ==> c.cur == LinesText(k.n, ms).value
    ensures LinesText(k.n, ms).Some?
    ensures GenerateAll(k, c).0 == ms <==> AllLegal(ms) && (!k.bare || |ms| <= 1)
  {
    LinesPrint(letter, digit, k, ms);
    if !k.bare {
      LinesRead(letter, digit, k, c, ms);
    } else if |ms| >= 2 {
      BareTwo(letter, digit, k, c, ms);
    } else {
      BareOne(letter, digit, k, c, ms);
    }
  }

  lemma BareOne(letter: int -> bool, digit: int -> bool, k: Parser, c: Cursor, ms: seq<Message>)
    requires k.f == KvConfig(letter, digit) && k.bare && AllShaped(letter, digit, k.n, ms) && |ms| <= 1
    requires LinesText(k.n, ms).Some? ==> c.cur == LinesText(k.n, ms).value
    ensures GenerateAll(k, c).0 == ms <==> AllLegal(ms)
  {
    LinesPrint(letter, digit, k, ms);
    GenerateAllIs(k, c);
    if ms == [] {
      BareEnds(k, c);
    } else {
      ShapedTail(letter, digit, k.n, ms);
      LinesPrint(letter, digit, k, ms[1..]);
      NewlineEndsLine([]);
      assert [NEWLINE] + LinesText(k.n, ms[1..]).value == [NEWLINE];
      hide Shaped, AllShaped, KvString, LinesText, Generate, LegalSession, GenerateAll;
      MessageReads(letter, digit, k, c, ms[0], [NEWLINE]);
      var d := Generate(k, c).rest;
      BareEnds(k, d);
      GenerateAllIs(k, d);
      assert ms == [ms[0]];
    }
  }
}
