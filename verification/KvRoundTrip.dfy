/** Parsing printed messages gives them back. */
module KvRoundTrip {

  import opened Wrappers
  import opened Bits
  import opened Tokens
  import opened Messages
  import opened Symbols
  import opened KvText
  import opened KvParse
  import opened KvTokens
  import Seqs
  import D = Decimals

  // ---------------------------------------------------------------------------------------------
  // Keys
  // ---------------------------------------------------------------------------------------------

  /** A key by number, or a dotted name that has no number. */
  ghost predicate KeyOk(letter: int -> bool, digit: int -> bool, a: Attribute) {
    if a.key != 0 then a.key < |V1| && a.skey.None?
    else a.skey.Some? && IsDotted(letter, digit, a.skey.value) && FindIn(V1, a.skey.value) == None
  }

  lemma NamesAreDotted(letter: int -> bool, digit: int -> bool, i: nat)
    requires 1 <= i < |V1|
    ensures IsDotted(letter, digit, V1[i])
  {
    V1Letters(i);
    hide V1;
    LettersAreName(letter, digit, V1[i], 0);
    var none: seq<seq<byte>> := [];
    assert V1[i] == V1[i] + Dots(none) && IsName(letter, digit, V1[i]) && AllNames(letter, digit, none);
  }

  lemma V1Letters(i: nat)
    requires 1 <= i < |V1|
    ensures V1[i] != [] && forall j | 0 <= j < |V1[i]| :: 97 <= V1[i][j] <= 122
  {
  }

  /** The printed key is a dotted name that stands for the same key. */
  lemma KeyReads(letter: int -> bool, digit: int -> bool, a: Attribute)
    requires KeyOk(letter, digit, a)
    ensures StringKey(1, a).Some? && IsDotted(letter, digit, StringKey(1, a).value)
    ensures Keyed(StringKey(1, a).value) == ZERO_ATTRIBUTE.(key := a.key, skey := a.skey)
  {
    if a.key != 0 {
      V1Distinct();
      NumberRoundTrip(V1, a.key);
      NamesAreDotted(letter, digit, a.key);
      hide V1, FindIn, IsDotted, Distinct;
    } else {
      hide V1, FindIn, IsDotted;
    }
  }

  // ---------------------------------------------------------------------------------------------
  // Values
  // ---------------------------------------------------------------------------------------------

  predicate NanosOk(n: nat) {
    1 <= n < 1_000_000_000 || (1_000_000_000 <= n < TWO_31 && n % 10 != 0)
  }

  predicate IntValue(a: Attribute) {
    a.ival.Some? && 0 <= a.ival.value < TWO_63 && a.sval.None? && a.tval.None?
  }

  predicate StringValue(a: Attribute) {
    a.sval.Some? && Clean(a.sval.value) && a.ival.None? && a.tval.None?
  }

  predicate IntervalValue(a: Attribute) {
    && a.tval.Some? && a.ival.None? && a.sval.None?
    && a.tval.value.seconds < TWO_63 && NanosOk(a.tval.value.nanoseconds) && a.tval.value.unknown == []
  }

  /** Exactly one value, of a kind that printing keeps. */
  predicate ValueOk(a: Attribute) {
    && a.bval.None? && a.boolval.None? && a.fval.None? && a.unknown == []
    && (IntValue(a) || StringValue(a) || IntervalValue(a))
  }

  /** `t` follows a value: the next pair or the end of the line. */
  predicate Follows(t: seq<byte>) {
    t == [] || t[0] == SPACE || t[0] == NEWLINE
  }

  lemma FollowsStops(t: seq<byte>)
    requires Follows(t)
    ensures Stops(t) && (t == [] || t[0] != 46)
  {
  }

  lemma PairValueIs(k: Parser, c: Cursor, a: Attribute)
    ensures ScanAt(k.f, c).tok == INT ==> PairValue(k, c, a) == AsInt(ScanAt(k.f, c), a)
    ensures ScanAt(k.f, c).tok == STRING ==> PairValue(k, c, a) == AsString(ScanAt(k.f, c), a)
    ensures ScanAt(k.f, c).tok == 58 && ScanAt(k.f, ScanAt(k.f, c).end).tok == FLOAT ==>
      PairValue(k, c, a) == AsInterval(ScanAt(k.f, ScanAt(k.f, c).end), a)
  {
    hide ScanAt, AsInt, AsString, AsInterval;
  }

  lemma IntReads(letter: int -> bool, digit: int -> bool, k: Parser, c: Cursor, a: Attribute, n: nat, t: seq<byte>)
    requires k.f == KvConfig(letter, digit) && Follows(t) && n < TWO_63
    requires c.cur == D.Decimal(n) + t
    ensures var r := PairValue(k, c, a); r.Good? && r.value == a.(ival := Some(n)) && r.rest.cur == t
  {
    hide ScanAt, PairValue, ParseInt0, KvConfig, D.Decimal, Follows, TokenText, Advance;
    FollowsStops(t);
    IntToken(letter, digit, c, n, t);
    PairValueIs(k, c, a);
    IntParses(n);
  }

  lemma StringReads(
    letter: int -> bool, digit: int -> bool, k: Parser, c: Cursor, a: Attribute, v: seq<byte>, t: seq<byte>)
    requires k.f == KvConfig(letter, digit) && Clean(v)
    requires c.cur == [QUOTE] + Quoted(v) + [QUOTE] + t
    ensures var r := PairValue(k, c, a); r.Good? && r.value == a.(sval := Some(v)) && r.rest.cur == t
  {
    hide ScanAt, PairValue, Inner, KvConfig, Quoted, Clean, TokenText, Advance;
    StringToken(letter, digit, c, v, t);
    PairValueIs(k, c, a);
  }

  lemma IntervalReads(
    letter: int -> bool, digit: int -> bool, k: Parser, c: Cursor, a: Attribute, seconds: nat, nanos: nat, t: seq<byte>)
    requires k.f == KvConfig(letter, digit) && Follows(t) && seconds < TWO_63 && NanosOk(nanos)
    requires D.Subsecond(nanos).Some? && c.cur == [58] + (D.Decimal(seconds) + [46] + D.Subsecond(nanos).value + t)
    ensures var r := PairValue(k, c, a);
            r.Good? && r.value == a.(tval := Some(Interval(seconds, nanos, []))) && r.rest.cur == t
  {
    NanosBound(nanos);
    hide ScanAt, PairValue, IntervalOf, KvConfig, D.Decimal, D.Subsecond, Follows, TokenText, Advance, NanosOk,
         D.AllDigits, D.Nanoseconds, Stops;
    var x, b := D.Decimal(seconds), D.Subsecond(nanos).value;
    FollowsStops(t);
    D.SubsecondRoundTrip(nanos);
    Punctuation(letter, digit, c, 58, x + [46] + b + t);
    FloatToken(letter, digit, Advance(c), seconds, b, t);
    PairValueIs(k, c, a);
    IntervalParses(seconds, nanos, ScanAt(k.f, Advance(c)).end);
  }

  lemma ColonFirst(x: seq<byte>, b: seq<byte>, t: seq<byte>)
    ensures [58] + x + [46] + b + t == [58] + (x + [46] + b + t)
  {
  }

  lemma NanosBound(nanos: nat)
    requires NanosOk(nanos)
    ensures 1 <= nanos < 1_000_000_000 || (1_000_000_000 <= nanos < TWO_31 && nanos % 10 != 0)
    ensures nanos < TWO_32
  {
  }

  /** Any printable value is read as itself. */
  lemma ValueReads(letter: int -> bool, digit: int -> bool, k: Parser, c: Cursor, a: Attribute, t: seq<byte>)
    requires k.f == KvConfig(letter, digit) && ValueOk(a) && Follows(t)
    requires ValueText(k.n, a).Some? ==> c.cur == ValueText(k.n, a).value + t
    ensures ValueText(k.n, a).Some?
    ensures var r := PairValue(k, c, ZERO_ATTRIBUTE.(key := a.key, skey := a.skey));
            r.Good? && r.value == a && r.rest.cur == t
  {
    var a0 := ZERO_ATTRIBUTE.(key := a.key, skey := a.skey);
    if IntValue(a) {
      hide PairValue, D.Decimal, KvConfig, D.Subsecond;
      IntReads(letter, digit, k, c, a0, a.ival.value, t);
    } else if StringValue(a) {
      hide PairValue, Quoted, KvConfig, D.Subsecond, Clean;
      StringReads(letter, digit, k, c, a0, a.sval.value, t);
    } else {
      NanosBound(a.tval.value.nanoseconds);
      D.SubsecondRoundTrip(a.tval.value.nanoseconds);
      hide PairValue, D.Decimal, KvConfig, D.Subsecond, NanosOk, D.Nanoseconds;
      ColonFirst(D.Decimal(a.tval.value.seconds), D.Subsecond(a.tval.value.nanoseconds).value, t);
      IntervalReads(letter, digit, k, c, a0, a.tval.value.seconds, a.tval.value.nanoseconds, t);
    }
  }

  // ---------------------------------------------------------------------------------------------
  // Pairs
  // ---------------------------------------------------------------------------------------------

  ghost predicate PairOk(letter: int -> bool, digit: int -> bool, a: Attribute) {
    KeyOk(letter, digit, a) && ValueOk(a)
  }

  lemma PairIs(k: Parser, t: Token)
    requires |t.end.cur| <= |t.start.cur| && NameFrom(k.f, t).Good?
    ensures var name := NameFrom(k.f, t); var e := ScanAt(k.f, name.rest);
            e.tok == 61 ==> Pair(k, t) == PairValue(k, e.end, Keyed(name.value))
  {
    hide NameFrom, ScanAt, PairValue, Keyed;
  }

  /** One pair, without the space before it. */
  lemma PairReads(
    letter: int -> bool, digit: int -> bool, k: Parser, c: Cursor, a: Attribute, value: seq<byte>, t: seq<byte>)
    requires k.f == KvConfig(letter, digit) && PairOk(letter, digit, a) && Follows(t)
    requires StringKey(1, a).Some? && ValueText(k.n, a) == Some(value)
    requires c.cur == StringKey(1, a).value + ([61] + (value + t))
    ensures var s := ScanAt(k.f, c); var r := Pair(k, s);
            s.start == c && r.Good? && r.value == a && r.rest.cur == t
    ensures Rune(c.cur) == Rune(StringKey(1, a).value)
  {
    assert KeyOk(letter, digit, a) && ValueOk(a);
    hide *;
    var key, tail := StringKey(1, a).value, [61] + (value + t);
    KeyReads(letter, digit, a);
    EqualsStops(value + t);
    DottedRead(letter, digit, c, key, tail);
    var s := ScanAt(k.f, c);
    var d := NameFrom(k.f, s).rest;
    Punctuation(letter, digit, d, 61, value + t);
    PairIs(k, s);
    ValueReads(letter, digit, k, Advance(d), a, t);
  }

  lemma EqualsStops(t: seq<byte>)
    ensures Stops([61] + t) && ([61] + t)[0] != 46
  {
  }

  /** The printed form of a list of pairs. */
  lemma PairsTextIs(n: Notations, s: seq<Attribute>, a: Attribute)
    requires s != [] && s[0] == a && StringKey(1, a).Some? && ValueText(n, a).Some?
    requires PairsText(n, 1, s[1..]).Some?
    ensures PairsText(n, 1, s) ==
      Some([SPACE] + (StringKey(1, a).value + ([61] + (ValueText(n, a).value + PairsText(n, 1, s[1..]).value))))
  {
    hide StringKey, ValueText;
    var key, value, rest := StringKey(1, a).value, ValueText(n, a).value, PairsText(n, 1, s[1..]).value;
    assert [SPACE] + key + [61] + value + rest == [SPACE] + (key + ([61] + (value + rest)));
  }

  ghost predicate PairsOk(letter: int -> bool, digit: int -> bool, s: seq<Attribute>) {
    forall a | a in s :: PairOk(letter, digit, a)
  }

  lemma PairsOkTail(letter: int -> bool, digit: int -> bool, s: seq<Attribute>)
    requires PairsOk(letter, digit, s) && s != []
    ensures PairOk(letter, digit, s[0]) && PairsOk(letter, digit, s[1..])
  {
    hide PairOk;
  }

  lemma PairPrints(letter: int -> bool, digit: int -> bool, n: Notations, a: Attribute)
    requires PairOk(letter, digit, a)
    ensures StringKey(1, a).Some? && ValueText(n, a).Some?
    ensures var r := Rune(StringKey(1, a).value); r != 32 && r != 9 && r != 91 && r != 92 && r != 10
    ensures StringKey(1, a).value != []
  {
    assert KeyOk(letter, digit, a) && ValueOk(a);
    KeyReads(letter, digit, a);
    DottedStart(letter, digit, StringKey(1, a).value, []);
    if IntervalValue(a) {
      NanosBound(a.tval.value.nanoseconds);
      D.SubsecondRoundTrip(a.tval.value.nanoseconds);
    }
    hide KeyOk, StringKey, D.Subsecond, D.Nanoseconds, D.Decimal, Quoted, IsDotted, Rune, NanosOk, Clean;
  }

  lemma {:induction false} PairsPrint(letter: int -> bool, digit: int -> bool, n: Notations, s: seq<Attribute>)
    requires PairsOk(letter, digit, s)
    ensures PairsText(n, 1, s).Some? && (s == [] <==> PairsText(n, 1, s).value == [])
    ensures Follows(PairsText(n, 1, s).value)
    decreases |s|
  {
    if s != [] {
      PairsOkTail(letter, digit, s);
      hide PairOk, PairsOk, StringKey, ValueText;
      PairPrints(letter, digit, n, s[0]);
      PairsPrint(letter, digit, n, s[1..]);
    }
  }

  lemma PairsIs(k: Parser, c: Cursor, acc: seq<Attribute>)
    ensures c.cur == [] || Rune(c.cur) == 10 ==> Pairs(k, c, acc) == Good(acc, c)
    ensures var t := ScanAt(k.f, c);
            c.cur != [] && Rune(c.cur) != 10 && t.start.cur != [] && Pair(k, t).Good? ==>
              Pairs(k, c, acc) == Pairs(k, Pair(k, t).rest, acc + [Pair(k, t).value])
  {
    hide ScanAt, Pair, Rune;
  }

  /** The end of a line or of the source. */
  predicate LineEnd(t: seq<byte>) {
    t == [] || t[0] == NEWLINE
  }

  lemma LineEndIs(t: seq<byte>)
    requires LineEnd(t)
    ensures Follows(t) && (t == [] || Rune(t) == 10)
  {
    RuneOfHead(t);
  }

  /** Behind the space of the first pair. */
  lemma {:induction false} PairsAfterSpace(
    letter: int -> bool, digit: int -> bool, k: Parser, c: Cursor, s: seq<Attribute>, acc: seq<Attribute>, t: seq<byte>)
    requires k.f == KvConfig(letter, digit) && PairsOk(letter, digit, s) && s != [] && LineEnd(t)
    requires PairsText(k.n, 1, s).Some? && PairsText(k.n, 1, s).value != []
    requires c.cur == PairsText(k.n, 1, s).value[1..] + t
    ensures c.cur != [] && Rune(c.cur) != 32 && Rune(c.cur) != 10 && Rune(c.cur) != 91 && Rune(c.cur) != 92
    ensures var r := Pairs(k, c, acc); r.Good? && r.value == acc + s && r.rest.cur == t
    decreases |s|, 0
  {
    PairsOkTail(letter, digit, s);
    hide *;
    var a := s[0];
    PairPrints(letter, digit, k.n, a);
    PairsPrint(letter, digit, k.n, s[1..]);
    PairsTextIs(k.n, s, a);
    var key, value, rest := StringKey(1, a).value, ValueText(k.n, a).value, PairsText(k.n, 1, s[1..]).value;
    PairShape(key, value, rest, t);
    FollowsOn(rest, t);
    PairReads(letter, digit, k, c, a, value, rest + t);
    var d := Pair(k, ScanAt(k.f, c)).rest;
    PairsIs(k, c, acc);
    PairsRead(letter, digit, k, d, s[1..], acc + [a], t);
    Seqs.HeadTail(acc, s);
  }

  lemma PairShape(key: seq<byte>, value: seq<byte>, rest: seq<byte>, t: seq<byte>)
    ensures ([SPACE] + (key + ([61] + (value + rest))))[1..] + t == key + ([61] + (value + (rest + t)))
  {
    var x := key + ([61] + (value + rest));
    assert ([SPACE] + x)[1..] == x;
    assert x + t == key + ([61] + (value + (rest + t)));
  }

  lemma FollowsOn(rest: seq<byte>, t: seq<byte>)
    requires Follows(rest) && LineEnd(t)
    ensures Follows(rest + t)
  {
  }

  /** A list of pairs up to the end of the line. */
  lemma {:induction false} PairsRead(
    letter: int -> bool, digit: int -> bool, k: Parser, c: Cursor, s: seq<Attribute>, acc: seq<Attribute>, t: seq<byte>)
    requires k.f == KvConfig(letter, digit) && PairsOk(letter, digit, s) && LineEnd(t)
    requires PairsText(k.n, 1, s).Some? && c.cur == PairsText(k.n, 1, s).value + t
    ensures var r := Pairs(k, c, acc); r.Good? && r.value == acc + s && r.rest.cur == t
    decreases |s|, 1
  {
    PairsPrint(letter, digit, k.n, s);
    LineEndIs(t);
    PairsIs(k, c, acc);
    if s == [] {
      assert c.cur == t && acc + s == acc;
    } else {
      PairsFirst(k, s);
      var text := PairsText(k.n, 1, s).value;
      hide *;
      Seqs.Assoc([SPACE], text[1..], t);
      Ascii32(c, text[1..] + t);
      PairsAfterSpace(letter, digit, k, Advance(c), s, acc, t);
      PairsSkip(letter, digit, k, c, acc);
    }
  }

  lemma Ascii32(c: Cursor, t: seq<byte>)
    requires c.cur == [SPACE] + t
    ensures Rune(c.cur) == 32 && Advance(c).cur == t
  {
    Ascii(c, SPACE, t);
  }

  lemma PairsFirst(k: Parser, s: seq<Attribute>)
    requires s != [] && PairsText(k.n, 1, s).Some?
    ensures var text := PairsText(k.n, 1, s).value; text != [] && text == [SPACE] + text[1..]
  {
    hide StringKey, ValueText;
  }

  /** A space before pairs makes no difference. */
  lemma PairsSkip(letter: int -> bool, digit: int -> bool, k: Parser, c: Cursor, acc: seq<Attribute>)
    requires k.f == KvConfig(letter, digit) && Rune(c.cur) == 32
    requires Advance(c).cur != [] && Rune(Advance(c).cur) != 10
    ensures Pairs(k, c, acc) == Pairs(k, Advance(c), acc)
  {
    hide ScanAt, Pair, Rune, Advance, KvConfig;
    ScanSkips(letter, digit, c);
    RuneOfHead(c.cur);
  }

  // ---------------------------------------------------------------------------------------------
  // Tags
  // ---------------------------------------------------------------------------------------------

  /** A tag with a value has a dotted name and a clean value, one without a plain name. */
  ghost predicate TagOk(letter: int -> bool, digit: int -> bool, t: Tag) {
    && t.unknown == []
    && if t.value.Some? then IsDotted(letter, digit, t.name) && Clean(t.value.value) else IsName(letter, digit, t.name)
  }

  /** Such tags, none without a value directly before one with a value: nothing is printed between them. */
  ghost predicate TagsOk(letter: int -> bool, digit: int -> bool, s: seq<Tag>) {
    s != [] ==>
      && TagOk(letter, digit, s[0])
      && (s[0].value.None? && |s| > 1 ==> s[1].value.None?)
      && TagsOk(letter, digit, s[1..])
  }

  lemma TagsIs(f: Config, c: Cursor, acc: seq<Tag>)
    ensures var t := ScanAt(f, c); t.start.cur != [] && t.tok == 93 ==> Tags(f, c, acc) == Good(acc, t.end)
    ensures var t := ScanAt(f, c); var u := ScanAt(f, t.end);
            t.start.cur != [] && t.tok == 33 && u.tok == IDENT ==>
              Tags(f, c, acc) == Tags(f, u.end, acc + [Tag(TokenText(u), None, [])])
    ensures var t := ScanAt(f, c);
            t.start.cur != [] && t.tok != 93 && t.tok != 33 && ValuedTag(f, t).Good? ==>
              Tags(f, c, acc) == Tags(f, ValuedTag(f, t).rest, acc + [ValuedTag(f, t).value])
  {
    hide ScanAt, ValuedTag, TokenText;
  }

  /** A space before a tag makes no difference. */
  lemma TagsSkip(letter: int -> bool, digit: int -> bool, c: Cursor, acc: seq<Tag>)
    requires Rune(c.cur) == 32
    ensures Tags(KvConfig(letter, digit), c, acc) == Tags(KvConfig(letter, digit), Advance(c), acc)
  {
    hide ScanAt, ValuedTag, TokenText, Rune, Advance, KvConfig;
    ScanSkips(letter, digit, c);
  }

  /** A tag without a value. */
  lemma PlainTagReads(
    letter: int -> bool, digit: int -> bool, c: Cursor, name: seq<byte>, acc: seq<Tag>, t: seq<byte>)
    returns (e: Cursor)
    requires c.cur == [33] + (name + t) && IsName(letter, digit, name) && Stops(t)
    ensures e.cur == t
    ensures Tags(KvConfig(letter, digit), c, acc) == Tags(KvConfig(letter, digit), e, acc + [Tag(name, None, [])])
  {
    hide *;
    var f := KvConfig(letter, digit);
    Punctuation(letter, digit, c, 33, name + t);
    NameToken(letter, digit, Advance(c), name, t);
    TagsIs(f, c, acc);
    e := ScanAt(f, Advance(c)).end;
  }

  lemma TagValueIs(f: Config, c: Cursor)
    ensures ScanAt(f, c).tok == STRING && Inner(TokenText(ScanAt(f, c))).Some? ==>
      TagValue(f, c) == Good(Inner(TokenText(ScanAt(f, c))).value, ScanAt(f, c).end)
  {
    hide ScanAt, TokenText, Inner;
  }

  lemma ValuedTagIs(f: Config, t: Token)
    requires |t.end.cur| <= |t.start.cur| && NameFrom(f, t).Good?
    ensures var name := NameFrom(f, t); var e := ScanAt(f, name.rest);
            e.tok == 61 && TagValue(f, e.end).Good? ==>
              ValuedTag(f, t) == Good(Tag(name.value, Some(TagValue(f, e.end).value), []), TagValue(f, e.end).rest)
  {
    hide ScanAt, NameFrom, TagValue;
  }

  /** A tag with a value. */
  lemma ValuedTagReads(
    letter: int -> bool, digit: int -> bool, c: Cursor, name: seq<byte>, v: seq<byte>, acc: seq<Tag>, t: seq<byte>)
    returns (e: Cursor)
    requires IsDotted(letter, digit, name) && Clean(v)
    requires c.cur == name + ([61] + ([QUOTE] + Quoted(v) + [QUOTE] + t))
    ensures e.cur == t
    ensures Tags(KvConfig(letter, digit), c, acc) == Tags(KvConfig(letter, digit), e, acc + [Tag(name, Some(v), [])])
  {
    hide *;
    var f := KvConfig(letter, digit);
    var value := [QUOTE] + Quoted(v) + [QUOTE] + t;
    EqualsStops(value);
    DottedRead(letter, digit, c, name, [61] + value);
    DottedStart(letter, digit, name, [61] + value);
    var s := ScanAt(f, c);
    var d := NameFrom(f, s).rest;
    Punctuation(letter, digit, d, 61, value);
    StringToken(letter, digit, Advance(d), v, t);
    TagValueIs(f, Advance(d));
    ValuedTagIs(f, s);
    IdentIsNoMark(s);
    TagsIs(f, c, acc);
    e := ScanAt(f, Advance(d)).end;
  }

  lemma IdentIsNoMark(s: Token)
    requires s.tok == IDENT
    ensures s.tok != 93 && s.tok != 33
  {
  }

  lemma TagListIs(s: seq<Tag>)
    ensures s == [] ==> TagListText(s) == []
    ensures s != [] ==> TagListText(s) == TagText(s[0], |s| == 1) + TagListText(s[1..])
    ensures s != [] && s[0].value.None? ==> TagListText(s) == [33] + s[0].name + TagListText(s[1..])
  {
  }

  lemma TagShape(name: seq<byte>, v: seq<byte>, sep: seq<byte>, rest: seq<byte>, t: seq<byte>)
    ensures (name + [61, QUOTE] + v + [QUOTE] + sep) + rest + t
         == name + ([61] + ([QUOTE] + v + [QUOTE] + (sep + (rest + t))))
  {
    assert [61, QUOTE] == [61] + [QUOTE];
  }

  lemma TagsOkIs(letter: int -> bool, digit: int -> bool, s: seq<Tag>)
    requires TagsOk(letter, digit, s) && s != []
    ensures TagOk(letter, digit, s[0]) && TagsOk(letter, digit, s[1..])
    ensures s[0].unknown == []
    ensures s[0].value.Some? ==> IsDotted(letter, digit, s[0].name) && Clean(s[0].value.value)
    ensures s[0].value.None? ==> IsName(letter, digit, s[0].name) && (|s| > 1 ==> s[1..][0].value.None?)
  {
    hide IsDotted, IsName, Clean;
  }

  /** Behind a tag without a value comes another one or the closing bracket. */
  lemma MarkStops(s: seq<Tag>, t: seq<byte>)
    requires s != [] ==> s[0].value.None?
    ensures Stops(TagListText(s) + ([93] + t))
  {
    TagListIs(s);
    hide TagListText;
    if s == [] {
      assert TagListText(s) + ([93] + t) == [93] + t;
    } else {
      assert (TagListText(s) + ([93] + t))[0] == 33;
    }
  }

  lemma FirstPlain(
    letter: int -> bool, digit: int -> bool, c: Cursor, s: seq<Tag>, acc: seq<Tag>, t: seq<byte>)
    returns (e: Cursor)
    requires TagsOk(letter, digit, s) && s != [] && s[0].value.None? && c.cur == TagListText(s) + ([93] + t)
    ensures e.cur == TagListText(s[1..]) + ([93] + t)
    ensures Tags(KvConfig(letter, digit), c, acc) == Tags(KvConfig(letter, digit), e, acc + [s[0]])
  {
    TagListIs(s);
    TagsOkIs(letter, digit, s);
    TagTextIs(s[0], true);
    hide *;
    MarkStops(s[1..], t);
    var tail := TagListText(s[1..]) + ([93] + t);
    Seqs.Assoc([33] + s[0].name, TagListText(s[1..]), [93] + t);
    Seqs.Assoc([33], s[0].name, tail);
    e := PlainTagReads(letter, digit, c, s[0].name, acc, tail);
  }

  lemma FirstValued(
    letter: int -> bool, digit: int -> bool, c: Cursor, s: seq<Tag>, acc: seq<Tag>, t: seq<byte>)
    returns (e: Cursor)
    requires TagsOk(letter, digit, s) && s != [] && s[0].value.Some? && c.cur == TagListText(s) + ([93] + t)
    ensures e.cur == TagListText(s[1..]) + ([93] + t)
    ensures Tags(KvConfig(letter, digit), c, acc) == Tags(KvConfig(letter, digit), e, acc + [s[0]])
  {
    TagListIs(s);
    TagsOkIs(letter, digit, s);
    TagTextIs(s[0], |s| == 1);
    hide *;
    var tail := TagListText(s[1..]) + ([93] + t);
    var sep := if |s| == 1 then [] else [SPACE];
    TagShape(s[0].name, Quoted(s[0].value.value), sep, TagListText(s[1..]), [93] + t);
    e := ValuedTagReads(letter, digit, c, s[0].name, s[0].value.value, acc, sep + tail);
    if |s| == 1 {
      assert sep + tail == tail;
    } else {
      Ascii32(e, tail);
      TagsSkip(letter, digit, e, acc + [s[0]]);
      e := Advance(e);
    }
  }

  /** The tags up to the closing bracket. */
  lemma {:induction false} TagsRead(
    letter: int -> bool, digit: int -> bool, c: Cursor, s: seq<Tag>, acc: seq<Tag>, t: seq<byte>)
    requires TagsOk(letter, digit, s) && c.cur == TagListText(s) + ([93] + t)
    ensures var r := Tags(KvConfig(letter, digit), c, acc); r.Good? && r.value == acc + s && r.rest.cur == t
    decreases |s|
  {
    TagListIs(s);
    if s == [] {
      assert c.cur == [93] + t && acc + s == acc;
      hide *;
      Punctuation(letter, digit, c, 93, t);
      TagsIs(KvConfig(letter, digit), c, acc);
    } else {
      TagsOkIs(letter, digit, s);
      hide *;
      Seqs.HeadTail(acc, s);
      var e: Cursor;
      if s[0].value.None? {
        e := FirstPlain(letter, digit, c, s, acc, t);
      } else {
        e := FirstValued(letter, digit, c, s, acc, t);
      }
      TagsRead(letter, digit, e, s[1..], acc + [s[0]], t);
    }
  }

  lemma TagTextIs(t: Tag, last: bool)
    ensures t.value.Some? ==>
      TagText(t, last) == t.name + [61, QUOTE] + Quoted(t.value.value) + [QUOTE] + if last then [] else [SPACE]
    ensures t.unknown == [] ==> t == Tag(t.name, t.value, [])
  {
  }
}
