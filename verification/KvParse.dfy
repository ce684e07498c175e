/** Reading messages in the key=value format: what `KVParser.Generate` makes of a source, written over the
    tokens of the plain scan. */
module KvParse {

  import opened Wrappers
  import opened Bits
  import opened Utf8
  import opened Tokens
  import opened Messages
  import opened Symbols
  import opened KvText
  import Seqs
  import D = Decimals

  /** The scanner settings of `NewKVParser`.  `letter` and `digit` classify the characters beyond ASCII. */
  function KvConfig(letter: int -> bool, digit: int -> bool): (f: Config)
    ensures Sane(f)
  {
    Config(true, false, true, false, true, false, false, false, {9, 32},
           (ch: int, i: nat) => IdentRune(letter, digit, ch, i))
  }

  predicate IdentRune(letter: int -> bool, digit: int -> bool, ch: int, i: nat) {
    || ch == 95
    || 65 <= ch <= 90 || 97 <= ch <= 122 || (ch >= 128 && letter(ch))
    || (i > 0 && (48 <= ch <= 57 || (ch >= 128 && digit(ch))))
  }

  /** A parser: its scanner settings, the notations, the clock reading, and whether bare lines are taken. */
  datatype Parser = Parser(f: Config, n: Notations, now: Interval, bare: bool)

  /** `Log()`. */
  function NewLog(now: Interval): Message {
    ZERO_MESSAGE.(version := 1, timestamp := Some(now), typ := Some(LOG))
  }

  /** `Attribute.SetKey` in a message of version 1. */
  function Keyed(key: seq<byte>): Attribute {
    match FindIn(V1, key)
    case Some(i) => ZERO_ATTRIBUTE.(key := i)
    case None => ZERO_ATTRIBUTE.(skey := Some(key))
  }

  // ---------------------------------------------------------------------------------------------
  // Skipping
  // ---------------------------------------------------------------------------------------------

  /** `skipToStart`: behind the next `>` at the start of a line, or the end of the source. */
  function SkipToStart(c: Cursor): (r: (bool, Cursor))
    ensures |r.1.cur| <= |c.cur| && (r.0 ==> |r.1.cur| < |c.cur|)
    decreases |c.cur|
  {
    if c.cur == [] then (false, c)
    else
      var d := Advance(c);
      if Rune(c.cur) == 10 && Rune(d.cur) == 62 then (true, Advance(d))
      else if Rune(c.cur) == 10 && d.cur == [] then (false, d)
      else SkipToStart(d)
  }

  /** `skipToNewline`, by tokens. */
  function SkipToNewline(f: Config, c: Cursor): (r: Cursor)
    ensures |r.cur| <= |c.cur|
    decreases |c.cur|
  {
    var t := ScanAt(f, c);
    if t.tok == 10 || t.start.cur == [] then t.end else SkipToNewline(f, t.end)
  }

  /** Characters up to a space, each written out again; `None` when the source ends first, in which case
      the loops that read a timestamp or a session never end. */
  function UntilSpace(c: Cursor): (r: Option<(seq<byte>, Cursor)>)
    ensures r.Some? ==> |r.value.1.cur| < |c.cur|
    decreases |c.cur|
  {
    if c.cur == [] then None
    else if Rune(c.cur) == 32 then Some(([], Advance(c)))
    else match UntilSpace(Advance(c))
         case None => None
         case Some((text, d)) => Some((EncodeRune(Rune(c.cur)) + text, d))
  }

  /** The characters of a bare line, each written out again. */
  function BareLine(c: Cursor): (r: (seq<byte>, Cursor))
    ensures |r.1.cur| <= |c.cur| && (c.cur != [] ==> |r.1.cur| < |c.cur|)
    ensures c.cur == [] ==> r.0 == []
    decreases |c.cur|
  {
    if c.cur == [] || Rune(c.cur) == 10 then ([], Advance(c))
    else (EncodeRune(Rune(c.cur)) + BareLine(Advance(c)).0, BareLine(Advance(c)).1)
  }

  lemma UntilSpaceIs(c: Cursor)
    ensures Rune(c.cur) == 32 ==> UntilSpace(c) == Some(([], Advance(c)))
    ensures c.cur == [] ==> UntilSpace(c) == None
    ensures var rest := UntilSpace(Advance(c));
            c.cur != [] && Rune(c.cur) != 32 ==>
              if rest.Some? then UntilSpace(c) == Some((EncodeRune(Rune(c.cur)) + rest.value.0, rest.value.1))
              else UntilSpace(c) == None
  {
    hide DecodeRune, Advance, EncodeRune;
  }

  lemma BareLineIs(c: Cursor)
    ensures c.cur == [] || Rune(c.cur) == 10 ==> BareLine(c) == ([], Advance(c))
    ensures c.cur != [] && Rune(c.cur) != 10 ==>
      BareLine(c) == (EncodeRune(Rune(c.cur)) + BareLine(Advance(c)).0, BareLine(Advance(c)).1)
  {
    hide Rune, Advance, EncodeRune;
  }

  // ---------------------------------------------------------------------------------------------
  // Names, tags and pairs
  // ---------------------------------------------------------------------------------------------

  /** How a part of a line was read: `Bad` leads to the next newline, `Crash` is a panic. */
  datatype Step<+T> = Good(value: T, rest: Cursor) | Bad(rest: Cursor) | Crash

  /** A quoted token without its first and last byte; the token may be a single quote at the end of the
      source, and then the source panics. */
  function Inner(text: seq<byte>): Option<seq<byte>> {
    if |text| < 2 then None else Some(text[1..|text| - 1])
  }

  function TokenText(t: Token): seq<byte>
    requires |t.end.cur| <= |t.start.cur|
  {
    Text(t.start, t.end)
  }

  /** The rest of a dotted name that starts with `name`. */
  function DottedName(f: Config, name: seq<byte>, c: Cursor): (r: Step<seq<byte>>)
    ensures !r.Crash? && |r.rest.cur| <= |c.cur|
    decreases |c.cur|
  {
    if Rune(c.cur) != 46 then Good(name, c)
    else
      var dot := ScanAt(f, c);
      var t := ScanAt(f, dot.end);
      if t.tok != IDENT then Bad(t.end)
      else DottedName(f, name + [46] + TokenText(t), t.end)
  }

  /** A name, from its first token on. */
  function NameFrom(f: Config, t: Token): (r: Step<seq<byte>>)
    requires |t.end.cur| <= |t.start.cur|
    ensures !r.Crash? ==> |r.rest.cur| <= |t.end.cur|
  {
    if t.tok == IDENT then DottedName(f, TokenText(t), t.end)
    else if t.tok == STRING then
      match Inner(TokenText(t))
      case None => Crash
      case Some(s) => Good(s, t.end)
    else Bad(t.end)
  }

  /** The value of a tag. */
  function TagValue(f: Config, c: Cursor): (r: Step<seq<byte>>)
    ensures !r.Crash? ==> |r.rest.cur| <= |c.cur|
  {
    var t := ScanAt(f, c);
    if t.tok == STRING then
      match Inner(TokenText(t))
      case None => Crash
      case Some(s) => Good(s, t.end)
    else if t.tok == IDENT then Good(TokenText(t), t.end)
    else Bad(t.end)
  }

  /** One tag with a value, from the first token of its name on. */
  function ValuedTag(f: Config, t: Token): (r: Step<Tag>)
    requires |t.end.cur| <= |t.start.cur|
    ensures !r.Crash? ==> |r.rest.cur| <= |t.end.cur|
  {
    match NameFrom(f, t)
    case Crash => Crash
    case Bad(rest) => Bad(rest)
    case Good(name, rest) =>
      var e := ScanAt(f, rest);
      if e.tok != 61 then Bad(e.end)
      else match TagValue(f, e.end)
           case Crash => Crash
           case Bad(rest) => Bad(rest)
           case Good(value, rest) => Good(Tag(name, Some(value), []), rest)
  }

  /** The tags up to the closing bracket. */
  function Tags(f: Config, c: Cursor, tags: seq<Tag>): (r: Step<seq<Tag>>)
    ensures !r.Crash? ==> |r.rest.cur| <= |c.cur|
    decreases |c.cur|
  {
    var t := ScanAt(f, c);
    if t.start.cur == [] then Bad(t.end)
    else if t.tok == 93 then Good(tags, t.end)
    else if t.tok == 33 then
      var u := ScanAt(f, t.end);
      if u.tok != IDENT then Bad(u.end) else Tags(f, u.end, tags + [Tag(TokenText(u), None, [])])
    else match ValuedTag(f, t)
         case Crash => Crash
         case Bad(rest) => Bad(rest)
         case Good(tag, rest) => Tags(f, rest, tags + [tag])
  }

  /** Digits of a base; `None` is a syntax error. */
  function Digits(s: seq<byte>, base: nat): Option<nat> {
    if s == [] then Some(0)
    else match Digits(s[..|s| - 1], base)
         case None => None
         case Some(v) =>
           var d := DigitVal(s[|s| - 1] as int);
           if d >= base then None else Some(v * base + d)
  }

  function Fits(v: Option<nat>): Option<int> {
    if v.Some? && v.value < TWO_63 then Some(v.value) else None
  }

  /** `strconv.ParseInt(text, 0, 64)` of a token without sign. */
  function ParseInt0(text: seq<byte>): Option<int> {
    if text == [] then None
    else if |text| > 1 && text[0] == 48 && (text[1] == 120 || text[1] == 88) then
      if |text| == 2 then None else Fits(Digits(text[2..], 16))
    else Fits(Digits(text, if text[0] == 48 then 8 else 10))
  }

  /** The seconds and the fraction of an interval token. */
  function IntervalOf(text: seq<byte>, rest: Cursor): (r: Step<Interval>)
    ensures !r.Crash? ==> r.rest == rest
  {
    var dot := Seqs.IndexOf(text, 46);
    if dot < 0 then Bad(rest)
    else match D.Nanoseconds(text[dot + 1..])
         case None => Crash
         case Some(nanos) => Good(Interval(D.LaxInt(text[..dot], TWO_63 - 1), nanos, []), rest)
  }

  /** The value of attribute `a` from one token. */
  function AsInt(t: Token, a: Attribute): Step<Attribute>
    requires |t.end.cur| <= |t.start.cur|
  {
    match ParseInt0(TokenText(t))
    case None => Bad(t.end)
    case Some(i) => Good(a.(ival := Some(i)), t.end)
  }

  function AsString(t: Token, a: Attribute): Step<Attribute>
    requires |t.end.cur| <= |t.start.cur|
  {
    match Inner(TokenText(t))
    case None => Crash
    case Some(s) => Good(a.(sval := Some(s)), t.end)
  }

  function AsInterval(t: Token, a: Attribute): Step<Attribute>
    requires |t.end.cur| <= |t.start.cur|
  {
    match IntervalOf(TokenText(t), t.end)
    case Crash => Crash
    case Bad(rest) => Bad(rest)
    case Good(i, rest) => Good(a.(tval := Some(i)), rest)
  }

  /** The value of a pair, as an attribute with key `a`. */
  function PairValue(k: Parser, c: Cursor, a: Attribute): (r: Step<Attribute>)
    ensures !r.Crash? ==> |r.rest.cur| <= |c.cur|
  {
    var t := ScanAt(k.f, c);
    if t.tok == 58 then
      var u := ScanAt(k.f, t.end);
      if u.tok != FLOAT then Bad(u.end) else AsInterval(u, a)
    else if t.tok == INT then AsInt(t, a)
    else if t.tok == FLOAT then
      match k.n.parseFloat(TokenText(t))
      case Some(x) => Good(a.(fval := Some(x)), t.end)
      case None => AsInt(t, a)
    else if t.tok == STRING then AsString(t, a)
    else if t.tok == IDENT || t.tok == CHAR then Good(a.(sval := Some(TokenText(t))), t.end)
    else Bad(t.end)
  }

  /** One pair, from its first token on. */
  function Pair(k: Parser, t: Token): (r: Step<Attribute>)
    requires |t.end.cur| <= |t.start.cur|
    ensures !r.Crash? ==> |r.rest.cur| <= |t.end.cur|
  {
    match NameFrom(k.f, t)
    case Crash => Crash
    case Bad(rest) => Bad(rest)
    case Good(key, rest) =>
      var e := ScanAt(k.f, rest);
      if e.tok != 61 then Bad(e.end) else PairValue(k, e.end, Keyed(key))
  }

  /** The pairs up to the end of the line. */
  function Pairs(k: Parser, c: Cursor, s: seq<Attribute>): (r: Step<seq<Attribute>>)
    ensures !r.Crash? ==> |r.rest.cur| <= |c.cur|
    decreases |c.cur|
  {
    if c.cur == [] || Rune(c.cur) == 10 then Good(s, c)
    else
      var t := ScanAt(k.f, c);
      if t.start.cur == [] then Bad(t.end)
      else match Pair(k, t)
           case Crash => Crash
           case Bad(rest) => Bad(rest)
           case Good(a, rest) => Pairs(k, rest, s + [a])
  }

  // ---------------------------------------------------------------------------------------------
  // Messages
  // ---------------------------------------------------------------------------------------------

  /** The outcome of `Generate`: a message, the end of the source, a loop that never ends, or a panic. */
  datatype Parsed = Parsed(m: Message, rest: Cursor) | End(rest: Cursor) | Stuck | Panics

  function TypeFlag(ch: int): Option<nat> {
    if ch == 33 then Some(METRIC)
    else if ch == 36 then Some(TRACE)
    else if ch == 42 then Some(AUDIT)
    else if ch == 63 then Some(HEARTBEAT)
    else None
  }

  /** The head of a message behind its `>`: flag, timestamp and session.  `None` is the endless loop,
      `Bad` a missing space. */
  function Head(k: Parser, c: Cursor): (r: Option<Step<Message>>)
    ensures r.Some? ==> !r.value.Crash? && |r.value.rest.cur| <= |c.cur|
  {
    var flag := TypeFlag(Rune(c.cur));
    var d := if flag.Some? then Advance(c) else c;
    var m := NewLog(k.now).(typ := if flag.Some? then flag else Some(LOG));
    if Rune(d.cur) != 32 then Some(Bad(Advance(d)))
    else match Stamped(k, m, Advance(d))
         case None => None
         case Some((m', e)) => Session(m', e)
  }

  function Stamped(k: Parser, m: Message, c: Cursor): (r: Option<(Message, Cursor)>)
    ensures r.Some? ==> |r.value.1.cur| <= |c.cur|
  {
    if Rune(c.cur) != 64 then Some((m, c))
    else match UntilSpace(Advance(c))
         case None => None
         case Some((text, d)) =>
           match k.n.unstamp([64] + text)
           case None => Some((m, d))
           case Some(ts) => Some((m.(timestamp := Some(ts)), d))
  }

  function Session(m: Message, c: Cursor): (r: Option<Step<Message>>)
    ensures r.Some? ==> r.value.Good? && |r.value.rest.cur| <= |c.cur|
  {
    if Rune(c.cur) != 92 then Some(Good(m, c))
    else match UntilSpace(Advance(c))
         case None => None
         case Some((text, d)) => Some(Good(m.(session := Some(text)), d))
  }

  /** Tags and pairs behind the head. */
  function Rest(k: Parser, m: Message, c: Cursor): (r: Step<Message>)
    ensures !r.Crash? ==> |r.rest.cur| <= |c.cur|
  {
    match (if Rune(c.cur) == 91 then Tags(k.f, Advance(c), []) else Good([], c))
    case Crash => Crash
    case Bad(rest) => Bad(rest)
    case Good(tags, rest) =>
      match Pairs(k, rest, [])
      case Crash => Crash
      case Bad(rest) => Bad(rest)
      case Good(pairs, rest) => Good(m.(tags := tags, attributes := pairs), rest)
  }

  /** `readBare`. */
  function ReadBare(k: Parser, c: Cursor): (r: Parsed)
    ensures r.Parsed? ==> |r.rest.cur| < |c.cur|
    decreases |c.cur|
  {
    var line := BareLine(c);
    if line.0 != [] then
      Parsed(NewLog(k.now).(attributes := [Keyed([109, 101, 115, 115, 97, 103, 101]).(sval := Some(line.0))]), line.1)
    else if c.cur == [] then End(c)
    else ReadBare(k, line.1)
  }

  /** `Generate`, from the start of a line or the middle of junk. */
  function Generate(k: Parser, c: Cursor): (r: Parsed)
    ensures r.Parsed? ==> |r.rest.cur| < |c.cur|
    decreases |c.cur|, 1
  {
    if c.cur == [] then End(c)
    else if Rune(c.cur) == 62 then Line(k, Advance(c))
    else if k.bare then ReadBare(k, c)
    else if SkipToStart(c).0 then Line(k, SkipToStart(c).1)
    else End(SkipToStart(c).1)
  }

  /** `Generate` behind the `>`. */
  function Line(k: Parser, c: Cursor): (r: Parsed)
    ensures r.Parsed? ==> |r.rest.cur| <= |c.cur|
    decreases |c.cur|, 2
  {
    if c.cur == [] then End(c)
    else match Head(k, c)
         case None => Stuck
         case Some(Bad(rest)) => Generate(k, rest)
         case Some(Good(m, rest)) =>
           match Rest(k, m, rest)
           case Crash => Panics
           case Bad(rest') => Generate(k, SkipToNewline(k.f, rest'))
           case Good(m', rest') => Parsed(m', rest')
  }

  /** All messages up to the first call of `Generate` that returns none, and the outcome of that call. */
  function GenerateAll(k: Parser, c: Cursor): (seq<Message>, Parsed)
    decreases |c.cur|
  {
    var r := Generate(k, c);
    if r.Parsed? then ([r.m] + GenerateAll(k, r.rest).0, GenerateAll(k, r.rest).1) else ([], r)
  }
}
