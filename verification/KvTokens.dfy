/** The tokens that the parser finds in printed text. */
module KvTokens {

  import opened Wrappers
  import opened Bits
  import opened Utf8
  import opened Tokens
  import opened Messages
  import opened KvText
  import opened KvParse
  import Seqs
  import D = Decimals

  // ---------------------------------------------------------------------------------------------
  // Single characters
  // ---------------------------------------------------------------------------------------------

  lemma Ascii(c: Cursor, b: byte, t: seq<byte>)
    requires c.cur == [b] + t && b < 0x80
    ensures Rune(c.cur) == b as int && Width(c.cur) == 1 && Advance(c).cur == t
  {
    assert c.cur[1..] == t;
  }

  lemma RuneOfHead(s: seq<byte>)
    ensures s != [] && s[0] < 0x80 ==> Rune(s) == s[0] as int
    ensures s != [] && s[0] >= 0x80 ==> Rune(s) >= 0x80
    ensures s == [] ==> Rune(s) == EOF
  {
  }

  lemma ScanIs(letter: int -> bool, digit: int -> bool, c: Cursor)
    ensures var f := KvConfig(letter, digit); var d := SkipWhite(f, c);
            ScanAt(f, c) == Token(TokenAt(f, d).0, d, TokenAt(f, d).1)
  {
    hide TokenAt, SkipWhite;
  }

  /** A token that starts with no white space starts here. */
  lemma ScanHere(letter: int -> bool, digit: int -> bool, c: Cursor)
    requires Rune(c.cur) != 32 && Rune(c.cur) != 9
    ensures var f := KvConfig(letter, digit);
            ScanAt(f, c) == Token(TokenAt(f, c).0, c, TokenAt(f, c).1)
  {
    ScanIs(letter, digit, c);
    hide TokenAt;
  }

  /** A space before a token makes no difference. */
  lemma ScanSkips(letter: int -> bool, digit: int -> bool, c: Cursor)
    requires Rune(c.cur) == 32
    ensures ScanAt(KvConfig(letter, digit), c) == ScanAt(KvConfig(letter, digit), Advance(c))
  {
    ScanIs(letter, digit, c);
    ScanIs(letter, digit, Advance(c));
    hide TokenAt, ScanAt;
  }

  /** Punctuation is a token by itself; a dot only where no digit follows. */
  lemma Punctuation(letter: int -> bool, digit: int -> bool, c: Cursor, b: byte, t: seq<byte>)
    requires c.cur == [b] + t && b in [33, 46, 58, 61, 93]
    requires b == 46 ==> t != [] && !IsDecimal(Rune(t))
    ensures ScanAt(KvConfig(letter, digit), c) == Token(b as int, c, Advance(c)) && Advance(c).cur == t
  {
    Ascii(c, b, t);
    ScanHere(letter, digit, c);
    hide Rune, Advance, ScanAt;
  }

  // ---------------------------------------------------------------------------------------------
  // Identifiers
  // ---------------------------------------------------------------------------------------------

  /** `s` is legal UTF-8 and its characters can stand in an identifier from the i-th place on. */
  ghost predicate IdentRunes(letter: int -> bool, digit: int -> bool, s: seq<byte>, i: nat)
    decreases |s|
  {
    s == [] || (!Illegal(s) && IdentRune(letter, digit, Rune(s), i) && IdentRunes(letter, digit, s[Width(s)..], i + 1))
  }

  ghost predicate IsName(letter: int -> bool, digit: int -> bool, s: seq<byte>) {
    s != [] && IdentRunes(letter, digit, s, 0)
  }

  /** `t` is empty or starts with an ASCII character that no name contains. */
  predicate Stops(t: seq<byte>) {
    t == [] || (t[0] < 0x80 && !(48 <= t[0] <= 57 || 65 <= t[0] <= 90 || 97 <= t[0] <= 122 || t[0] == 95))
  }

  lemma StopsIdent(letter: int -> bool, digit: int -> bool, t: seq<byte>, i: nat)
    requires Stops(t)
    ensures !IdentRune(letter, digit, Rune(t), i) && !IsDecimal(Rune(t))
  {
  }

  lemma {:induction false} IdentEndsAt(
    letter: int -> bool, digit: int -> bool, c: Cursor, s: seq<byte>, t: seq<byte>, i: nat)
    requires c.cur == s + t && IdentRunes(letter, digit, s, i) && Stops(t)
    ensures IdentEnd(KvConfig(letter, digit), c, i).cur == t
    decreases |s|
  {
    if s == [] {
      StopsIdent(letter, digit, t, i);
      assert c.cur == t;
    } else {
      DecodeAppend(s, t);
      hide DecodeRune, Illegal;
      assert Rune(c.cur) == Rune(s) && Width(c.cur) == Width(s);
      assert (s + t)[Width(s)..] == s[Width(s)..] + t;
      IdentEndsAt(letter, digit, Advance(c), s[Width(s)..], t, i + 1);
    }
  }

  lemma NameStart(letter: int -> bool, digit: int -> bool, s: seq<byte>, t: seq<byte>)
    requires IsName(letter, digit, s)
    ensures Rune(s + t) == Rune(s) && Width(s + t) == Width(s) && IdentRune(letter, digit, Rune(s), 0)
    ensures IdentRunes(letter, digit, s[Width(s)..], 1) && (s + t)[Width(s)..] == s[Width(s)..] + t
    ensures Rune(s) != 32 && Rune(s) != 9 && Rune(s) != 33 && Rune(s) != 93 && Rune(s) != 91 && Rune(s) != 92
    ensures Rune(s) != 10
    ensures s != [] && !IsDecimal(Rune(s + t))
  {
    DecodeAppend(s, t);
    hide DecodeRune, Illegal;
  }

  lemma NameToken(letter: int -> bool, digit: int -> bool, c: Cursor, s: seq<byte>, t: seq<byte>)
    requires c.cur == s + t && IsName(letter, digit, s) && Stops(t)
    ensures var k := ScanAt(KvConfig(letter, digit), c);
            && k.tok == IDENT && k.start == c && k.end.cur == t && TokenText(k) == s
  {
    NameStart(letter, digit, s, t);
    IdentEndsAt(letter, digit, Advance(c), s[Width(s)..], t, 1);
    ScanHere(letter, digit, c);
    hide Rune, Width, ScanAt, IdentEnd, IdentRunes, IdentRune;
    assert (s + t)[..|s|] == s;
  }

  // ---------------------------------------------------------------------------------------------
  // Dotted names
  // ---------------------------------------------------------------------------------------------

  ghost predicate AllNames(letter: int -> bool, digit: int -> bool, parts: seq<seq<byte>>) {
    forall p | p in parts :: IsName(letter, digit, p)
  }

  function Dots(parts: seq<seq<byte>>): seq<byte> {
    if parts == [] then [] else [46] + parts[0] + Dots(parts[1..])
  }

  /** Names joined by dots. */
  ghost predicate IsDotted(letter: int -> bool, digit: int -> bool, s: seq<byte>) {
    exists first: seq<byte>, parts: seq<seq<byte>> ::
      IsName(letter, digit, first) && AllNames(letter, digit, parts) && s == first + Dots(parts)
  }

  lemma DotsStop(parts: seq<seq<byte>>, t: seq<byte>)
    requires Stops(t)
    ensures Stops(Dots(parts) + t)
  {
  }

  /** One dot and one name. */
  lemma DotRead(letter: int -> bool, digit: int -> bool, c: Cursor, name: seq<byte>, part: seq<byte>, t: seq<byte>)
    requires c.cur == [46] + (part + t) && IsName(letter, digit, part) && Stops(t)
    ensures var f := KvConfig(letter, digit); var e := ScanAt(f, Advance(c)).end;
            e.cur == t && DottedName(f, name, c) == DottedName(f, name + [46] + part, e)
  {
    hide *;
    Ascii(c, 46, part + t);
    NameStart(letter, digit, part, t);
    Punctuation(letter, digit, c, 46, part + t);
    NameToken(letter, digit, Advance(c), part, t);
    DottedNameIs(KvConfig(letter, digit), name, c);
  }

  lemma DottedNameIs(f: Config, name: seq<byte>, c: Cursor)
    ensures Rune(c.cur) != 46 ==> DottedName(f, name, c) == Good(name, c)
    ensures var t := ScanAt(f, ScanAt(f, c).end);
            Rune(c.cur) == 46 ==>
              DottedName(f, name, c) ==
                if t.tok != IDENT then Bad(t.end) else DottedName(f, name + [46] + TokenText(t), t.end)
  {
    hide ScanAt, Rune;
  }

  lemma DotsIs(parts: seq<seq<byte>>)
    ensures parts == [] ==> Dots(parts) == []
    ensures parts != [] ==> Dots(parts) == [46] + parts[0] + Dots(parts[1..])
  {
  }

  lemma {:induction false} DotsRead(
    letter: int -> bool, digit: int -> bool, c: Cursor, name: seq<byte>, parts: seq<seq<byte>>, t: seq<byte>)
    requires c.cur == Dots(parts) + t && AllNames(letter, digit, parts) && Stops(t) && (t == [] || t[0] != 46)
    ensures var r := DottedName(KvConfig(letter, digit), name, c);
            r.Good? && r.value == name + Dots(parts) && r.rest.cur == t
    decreases |parts|
  {
    DotsIs(parts);
    if parts == [] {
      assert c.cur == t;
      RuneOfHead(t);
      hide Rune, Stops;
      DottedNameIs(KvConfig(letter, digit), name, c);
      assert name + [] == name;
    } else {
      TailNames(letter, digit, parts);
      hide *;
      var tail := Dots(parts[1..]) + t;
      Seqs.Assoc([46], parts[0], Dots(parts[1..]));
      Seqs.Assoc([46] + parts[0], Dots(parts[1..]), t);
      Seqs.Assoc([46], parts[0], tail);
      DotsStop(parts[1..], t);
      DotRead(letter, digit, c, name, parts[0], tail);
      var e := ScanAt(KvConfig(letter, digit), Advance(c)).end;
      Seqs.Assoc(name, [46], parts[0]);
      Seqs.Assoc(name, [46] + parts[0], Dots(parts[1..]));
      DotsRead(letter, digit, e, name + [46] + parts[0], parts[1..], t);
    }
  }

  lemma TailNames(letter: int -> bool, digit: int -> bool, parts: seq<seq<byte>>)
    requires parts != [] && AllNames(letter, digit, parts)
    ensures IsName(letter, digit, parts[0]) && AllNames(letter, digit, parts[1..])
  {
    hide IsName;
  }

  /** A dotted name up to `t`, from its first token. */
  lemma DottedRead(letter: int -> bool, digit: int -> bool, c: Cursor, s: seq<byte>, t: seq<byte>)
    requires c.cur == s + t && IsDotted(letter, digit, s) && Stops(t) && (t == [] || t[0] != 46)
    ensures var f := KvConfig(letter, digit); var k := ScanAt(f, c); var r := NameFrom(f, k);
            k.start == c && k.tok == IDENT && r.Good? && r.value == s && r.rest.cur == t
    ensures Rune(c.cur) == Rune(s)
  {
    var first, parts :| IsName(letter, digit, first) && AllNames(letter, digit, parts) && s == first + Dots(parts);
    Seqs.Assoc(first, Dots(parts), t);
    DotsStop(parts, t);
    NameToken(letter, digit, c, first, Dots(parts) + t);
    NameStart(letter, digit, first, Dots(parts) + t);
    NameStart(letter, digit, first, Dots(parts));
    hide Rune, Width, ScanAt, IsName, Stops, DottedName;
    DotsRead(letter, digit, ScanAt(KvConfig(letter, digit), c).end, first, parts, t);
  }

  lemma DottedStart(letter: int -> bool, digit: int -> bool, s: seq<byte>, t: seq<byte>)
    requires IsDotted(letter, digit, s)
    ensures s != [] && Rune(s + t) == Rune(s)
    ensures Rune(s) != 32 && Rune(s) != 9 && Rune(s) != 33 && Rune(s) != 93 && Rune(s) != 91 && Rune(s) != 92
    ensures Rune(s) != 10
  {
    var first, parts :| IsName(letter, digit, first) && AllNames(letter, digit, parts) && s == first + Dots(parts);
    Seqs.Assoc(first, Dots(parts), t);
    NameStart(letter, digit, first, Dots(parts) + t);
    NameStart(letter, digit, first, Dots(parts));
    hide Rune, Width;
  }

  /** Plain ASCII letters are a name. */
  lemma {:induction false} LettersAreName(letter: int -> bool, digit: int -> bool, s: seq<byte>, i: nat)
    requires forall j | 0 <= j < |s| :: 97 <= s[j] <= 122
    ensures IdentRunes(letter, digit, s, i)
    decreases |s|
  {
    if s != [] {
      LettersAreName(letter, digit, s[1..], i + 1);
    }
  }

  // ---------------------------------------------------------------------------------------------
  // Strings
  // ---------------------------------------------------------------------------------------------

  /** A string token's text ends at its closing quote: no quote and no newline, and no backslash left over at
      the end to escape the quote. */
  predicate Clean(v: seq<byte>) {
    if v == [] then true
    else if v[0] == QUOTE || v[0] == NEWLINE then false
    else if v[0] == BACKSLASH then
      |v| >= 2 && if v[1] == BACKSLASH then Clean(v[2..]) else Clean(v[1..])
    else Clean(v[1..])
  }

  predicate Plain(b: byte) {
    b != QUOTE && b != NEWLINE && b != BACKSLASH
  }

  predicate NoQuotes(v: seq<byte>) {
    forall i | 0 <= i < |v| :: v[i] != QUOTE
  }

  lemma {:induction false} CleanHasNoQuotes(v: seq<byte>)
    requires Clean(v)
    ensures NoQuotes(v)
    decreases |v|
  {
    if v != [] {
      if v[0] == BACKSLASH && v[1] == BACKSLASH {
        CleanHasNoQuotes(v[2..]);
        assert v == [v[0], v[1]] + v[2..];
      } else {
        CleanHasNoQuotes(v[1..]);
        assert v == [v[0]] + v[1..];
      }
    }
  }

  /** Printing changes exactly the strings with quotes. */
  lemma {:induction false} QuotedIs(v: seq<byte>)
    ensures |Quoted(v)| >= |v| && (Quoted(v) == v <==> NoQuotes(v))
    ensures |Quoted(v)| == |v| ==> NoQuotes(v)
    decreases |v|
  {
    if v != [] {
      QuotedIs(v[1..]);
      assert v == [v[0]] + v[1..];
    }
  }

  /** The rest `u` of `v` is clean if `v` is, and has a newline if `v` has one. */
  predicate Alike(v: seq<byte>, u: seq<byte>) {
    Clean(v) == Clean(u) && (NEWLINE in v <==> NEWLINE in u)
  }

  lemma {:induction false} SkipPlain(v: seq<byte>, w: nat)
    requires w <= |v| && forall i | 0 <= i < w :: Plain(v[i])
    ensures Alike(v, v[w..])
    decreases w
  {
    if w > 0 {
      SkipPlain(v[1..], w - 1);
      assert v == [v[0]] + v[1..];
      assert v[1..][w - 1..] == v[w..];
    } else {
      assert v[0..] == v;
    }
  }

  /** The bytes of a character beyond ASCII are all beyond ASCII. */
  lemma HighBytes(s: seq<byte>)
    requires s != [] && s[0] >= 0x80
    ensures forall i | 0 <= i < Width(s) :: s[i] >= 0x80
    ensures Rune(s) >= 0x80
  {
  }

  lemma WidthInside(v: seq<byte>, q: seq<byte>)
    requires v != [] && Plain(v[0]) && q != [] && q[0] == QUOTE
    ensures 1 <= Width(v + q) <= |v| && (forall i | 0 <= i < Width(v + q) :: Plain(v[i]))
    ensures Rune(v + q) != 34 && Rune(v + q) != 10 && Rune(v + q) != 92 && v + q != []
  {
    var s := v + q;
    assert s[0] == v[0] && s[|v|] == QUOTE;
    if v[0] < 0x80 {
      RuneOfHead(s);
      assert Width(s) == 1;
    } else {
      HighBytes(s);
      hide Width, Rune;
      assert forall i | 0 <= i < |v| :: s[i] == v[i];
    }
  }

  lemma DropInside<T>(v: seq<T>, q: seq<T>, w: nat)
    requires w <= |v|
    ensures (v + q)[w..] == v[w..] + q
  {
  }

  /** One character of a string that is neither quote, newline nor backslash. */
  lemma PlainStep(c: Cursor, v: seq<byte>, q: seq<byte>)
    requires c.cur == v + q && q != [] && q[0] == QUOTE && v != [] && Plain(v[0])
    ensures var w := Width(c.cur); 1 <= w <= |v| && Advance(c).cur == v[w..] + q && Alike(v, v[w..])
    ensures Rune(c.cur) != 34 && Rune(c.cur) != 10 && Rune(c.cur) != 92 && c.cur != []
  {
    WidthInside(v, q);
    hide Width, Rune, Clean, Plain, Alike;
    SkipPlain(v, Width(c.cur));
    DropInside(v, q, Width(c.cur));
  }

  lemma DropTwice<T>(s: seq<T>, i: nat, j: nat)
    requires i + j <= |s|
    ensures s[i..][j..] == s[i + j..]
  {
  }

  lemma DigitIsPlain(v: seq<byte>, q: seq<byte>)
    requires q != [] && q[0] == QUOTE && DigitVal(Rune(v + q)) < 16
    ensures v != [] && Plain(v[0]) && v + q != []
  {
    RuneOfHead(v + q);
    hide Rune;
    assert (v + q)[0] == if v == [] then QUOTE else v[0];
  }

  lemma DigitsEndIs(c: Cursor, base: nat, n: nat)
    ensures n == 0 ==> DigitsEnd(c, base, n) == c
    ensures n > 0 && c.cur != [] && DigitVal(Rune(c.cur)) < base ==>
      DigitsEnd(c, base, n) == DigitsEnd(Advance(c), base, n - 1)
    ensures n > 0 && (c.cur == [] || DigitVal(Rune(c.cur)) >= base) ==> DigitsEnd(c, base, n) == Err(c)
    ensures Err(c).cur == c.cur
  {
    hide Rune, Advance, DigitVal;
  }

  lemma AlikeIs(v: seq<byte>, u: seq<byte>, w: seq<byte>)
    ensures Alike(v, v) && (Alike(v, u) && Alike(u, w) ==> Alike(v, w))
  {
  }

  /** Digits of an escape are plain characters. */
  lemma {:induction false} DigitsSkip(c: Cursor, v: seq<byte>, q: seq<byte>, base: nat, n: nat) returns (j: nat)
    requires c.cur == v + q && q != [] && q[0] == QUOTE && base <= 16
    ensures j <= |v| && DigitsEnd(c, base, n).cur == v[j..] + q
    ensures Alike(v, v[j..])
    decreases n
  {
    hide *;
    DigitsEndIs(c, base, n);
    AlikeIs(v, v, v);
    assert v[0..] == v;
    j := 0;
    if n > 0 && c.cur != [] && DigitVal(Rune(c.cur)) < base {
      DigitIsPlain(v, q);
      PlainStep(c, v, q);
      var w := Width(c.cur);
      var k := DigitsSkip(Advance(c), v[w..], q, base, n - 1);
      DropTwice(v, w, k);
      j := w + k;
      AlikeIs(v, v[w..], v[j..]);
    }
  }

  /** Where an escape ends, from the character behind the backslash. */
  function EscapeFrom(d: Cursor): Cursor {
    var ch := Rune(d.cur);
    if ch in {97, 98, 102, 110, 114, 116, 118, 92, 34} then Advance(d)
    else if 48 <= ch <= 55 then DigitsEnd(d, 8, 3)
    else if ch == 120 then DigitsEnd(Advance(d), 16, 2)
    else if ch == 117 then DigitsEnd(Advance(d), 16, 4)
    else if ch == 85 then DigitsEnd(Advance(d), 16, 8)
    else Err(d)
  }

  lemma EscapeFromIs(d: Cursor)
    ensures var ch := Rune(d.cur);
            && (ch in {97, 98, 102, 110, 114, 116, 118, 92, 34} ==> EscapeFrom(d) == Advance(d))
            && (48 <= ch <= 55 ==> EscapeFrom(d) == DigitsEnd(d, 8, 3))
            && (ch == 120 || ch == 117 || ch == 85 ==>
                  EscapeFrom(d) == DigitsEnd(Advance(d), 16, if ch == 120 then 2 else if ch == 117 then 4 else 8))
            && (ch !in {97, 98, 102, 110, 114, 116, 118, 92, 34, 120, 117, 85} && !(48 <= ch <= 55) ==>
                  EscapeFrom(d) == Err(d))
  {
    hide Rune, Advance, DigitsEnd;
  }

  lemma EscapeIs(c: Cursor)
    ensures EscapeEnd(c, 34) == EscapeFrom(Advance(c))
  {
    hide Rune, Advance, DigitsEnd;
  }

  lemma CleanIs(v: seq<byte>)
    ensures Clean(v) ==
      if v == [] then true
      else if v[0] == QUOTE || v[0] == NEWLINE then false
      else if v[0] == BACKSLASH then |v| >= 2 && if v[1] == BACKSLASH then Clean(v[2..]) else Clean(v[1..])
      else Clean(v[1..])
  {
  }

  /** What follows the backslash of an escape, from the character `d` is at. */
  lemma EscapeTail(d: Cursor, u: seq<byte>, q: seq<byte>) returns (j: nat)
    requires d.cur == u + q && q != [] && q[0] == QUOTE && u != [] && Plain(u[0])
    ensures j <= |u| && Alike(u, u[j..])
    ensures EscapeFrom(d).cur == u[j..] + q
  {
    hide *;
    AlikeIs(u, u, u);
    PlainStep(d, u, q);
    DigitsEndIs(d, 8, 0);
    EscapeFromIs(d);
    var ch, w := Rune(d.cur), Width(d.cur);
    if ch in {97, 98, 102, 110, 114, 116, 118} {
      j := w;
    } else if 48 <= ch <= 55 {
      j := DigitsSkip(d, u, q, 8, 3);
    } else if ch == 120 || ch == 117 || ch == 85 {
      var k := DigitsSkip(Advance(d), u[w..], q, 16, if ch == 120 then 2 else if ch == 117 then 4 else 8);
      DropTwice(u, w, k);
      j := w + k;
      AlikeIs(u, u[w..], u[j..]);
    } else {
      j := 0;
      assert u[0..] == u;
    }
  }

  lemma BackslashStep(c: Cursor, v: seq<byte>, q: seq<byte>)
    requires c.cur == v + q && v != [] && v[0] == BACKSLASH
    ensures Advance(c).cur == v[1..] + q && Rune(c.cur) == 92 && c.cur != []
  {
    assert v == [BACKSLASH] + v[1..];
    Seqs.Assoc([BACKSLASH], v[1..], q);
    Ascii(c, BACKSLASH, v[1..] + q);
  }

  /** An escape of one ASCII character that needs no more. */
  lemma ShortEscape(d: Cursor, b: byte, t: seq<byte>)
    requires d.cur == [b] + t && b in [QUOTE, BACKSLASH, NEWLINE]
    ensures EscapeFrom(d).cur == if b == NEWLINE then d.cur else t
  {
    Ascii(d, b, t);
    EscapeFromIs(d);
    hide EscapeFrom, Rune, Advance, DigitsEnd;
  }

  /** A backslash right before the closing quote takes it. */
  lemma LastEscape(c: Cursor, v: seq<byte>, q: seq<byte>)
    requires c.cur == v + q && q != [] && q[0] == QUOTE && v == [BACKSLASH]
    ensures EscapeEnd(c, 34).cur == q[1..] && !Clean(v) && NEWLINE !in v
  {
    CleanIs(v);
    BackslashStep(c, v, q);
    EscapeIs(c);
    hide EscapeEnd, EscapeFrom, Clean, Rune, Advance;
    assert Advance(c).cur == [QUOTE] + q[1..];
    ShortEscape(Advance(c), QUOTE, q[1..]);
  }

  lemma CleanPair(v: seq<byte>)
    requires |v| > 1 && v[0] == BACKSLASH && (v[1] == BACKSLASH || v[1] == NEWLINE)
    ensures Alike(v, v[if v[1] == BACKSLASH then 2 else 1..])
    ensures v[1..] == [v[1]] + v[2..]
  {
    CleanIs(v);
    assert v == [v[0]] + v[1..] && v == [v[0], v[1]] + v[2..];
  }

  /** An escaped backslash, and a newline, which is never escaped. */
  lemma PairEscape(c: Cursor, v: seq<byte>, q: seq<byte>)
    requires c.cur == v + q && |v| > 1 && v[0] == BACKSLASH && (v[1] == BACKSLASH || v[1] == NEWLINE)
    ensures var j := if v[1] == BACKSLASH then 2 else 1;
            EscapeEnd(c, 34).cur == v[j..] + q && Alike(v, v[j..])
  {
    CleanPair(v);
    hide EscapeEnd, EscapeFrom, Clean, Rune, Advance;
    BackslashStep(c, v, q);
    EscapeIs(c);
    Seqs.Assoc([v[1]], v[2..], q);
    ShortEscape(Advance(c), v[1], v[2..] + q);
  }

  lemma LongEscape(c: Cursor, v: seq<byte>, q: seq<byte>) returns (j: nat)
    requires c.cur == v + q && q != [] && q[0] == QUOTE && |v| > 1 && v[0] == BACKSLASH && Plain(v[1])
    ensures 1 <= j <= |v| && EscapeEnd(c, 34).cur == v[j..] + q && Alike(v, v[j..])
  {
    CleanIs(v);
    assert v == [v[0]] + v[1..] && Alike(v, v[1..]);
    hide EscapeEnd, EscapeFrom, Clean, Rune, Advance, Alike;
    BackslashStep(c, v, q);
    EscapeIs(c);
    var k := EscapeTail(Advance(c), v[1..], q);
    DropTwice(v, 1, k);
    j := 1 + k;
    AlikeIs(v, v[1..], v[j..]);
  }

  lemma StringEndIs(c: Cursor, n: nat)
    ensures Rune(c.cur) == 34 ==> StringEnd(c, 34, n).0.cur == c.cur
    ensures c.cur == [] || Rune(c.cur) == 10 ==> StringEnd(c, 34, n).0.cur == c.cur
    ensures c.cur != [] && Rune(c.cur) == 92 ==> StringEnd(c, 34, n) == StringEnd(EscapeEnd(c, 34), 34, n + 1)
    ensures c.cur != [] && Rune(c.cur) != 92 && Rune(c.cur) != 34 && Rune(c.cur) != 10 ==>
      StringEnd(c, 34, n) == StringEnd(Advance(c), 34, n + 1)
    ensures |StringEnd(c, 34, n).0.cur| <= |c.cur|
  {
    RuneOfHead(c.cur);
    hide Rune, Advance, EscapeEnd;
  }

  lemma CleanCases(v: seq<byte>)
    ensures v == [] ==> Clean(v)
    ensures v != [] && v[0] == NEWLINE ==> !Clean(v) && NEWLINE in v
    ensures forall u :: Alike(v, u) ==> Clean(v) == Clean(u) && (NEWLINE in v <==> NEWLINE in u)
  {
  }

  lemma NoQuotesFrom(v: seq<byte>, j: nat)
    requires NoQuotes(v) && j <= |v|
    ensures NoQuotes(v[j..]) && (v != [] ==> v[0] != QUOTE)
  {
  }

  /** An escape within a string without quotes. */
  lemma EscapeStep(c: Cursor, v: seq<byte>, q: seq<byte>) returns (j: nat)
    requires c.cur == v + q && q != [] && q[0] == QUOTE && NoQuotes(v) && |v| > 1 && v[0] == BACKSLASH
    ensures 1 <= j <= |v| && EscapeEnd(c, 34).cur == v[j..] + q && Alike(v, v[j..]) && NoQuotes(v[j..])
  {
    hide EscapeEnd, Clean, NoQuotes, Alike;
    NoQuotesFrom(v, 1);
    if v[1] == BACKSLASH || v[1] == NEWLINE {
      PairEscape(c, v, q);
      j := if v[1] == BACKSLASH then 2 else 1;
    } else {
      NoQuotesFrom(v[1..], 0);
      j := LongEscape(c, v, q);
    }
    NoQuotesFrom(v, j);
  }

  /** Where the loop over a string without quotes ends: at the quote behind it if it is clean, otherwise at a
      newline before the quote if it has one, or somewhere behind the quote. */
  lemma {:induction false} StringOutcome(c: Cursor, v: seq<byte>, q: seq<byte>, n: nat)
    requires c.cur == v + q && q != [] && q[0] == QUOTE && NoQuotes(v)
    ensures var e := StringEnd(c, 34, n).0.cur;
            if Clean(v) then e == q
            else if NEWLINE in v then |e| > |q| && e[0] == NEWLINE
            else |e| < |q|
    decreases |v|
  {
    StringEndIs(c, n);
    CleanCases(v);
    NoQuotesFrom(v, 0);
    hide StringEnd, EscapeEnd, Clean, NoQuotes, Rune, Width, Advance, Alike;
    if v == [] {
      assert c.cur == q == [QUOTE] + q[1..];
      Ascii(c, QUOTE, q[1..]);
    } else if v[0] == NEWLINE {
      assert c.cur == [NEWLINE] + (v[1..] + q);
      Ascii(c, NEWLINE, v[1..] + q);
    } else if v[0] == BACKSLASH {
      BackslashStep(c, v, q);
      if |v| == 1 {
        LastEscape(c, v, q);
        StringEndIs(EscapeEnd(c, 34), n + 1);
      } else {
        var j := EscapeStep(c, v, q);
        StringOutcome(EscapeEnd(c, 34), v[j..], q, n + 1);
      }
    } else {
      PlainStep(c, v, q);
      NoQuotesFrom(v, Width(c.cur));
      StringOutcome(Advance(c), v[Width(c.cur)..], q, n + 1);
    }
  }

  /** A printed string is read back, with the text behind it left over, exactly if it is clean; or, at the very
      end of the source, as an unterminated literal, if it has no quote and no newline. */
  lemma StringToken(letter: int -> bool, digit: int -> bool, c: Cursor, v: seq<byte>, t: seq<byte>)
    requires c.cur == [QUOTE] + Quoted(v) + [QUOTE] + t
    ensures var k := ScanAt(KvConfig(letter, digit), c);
            && k.start == c && k.tok == STRING
            && (Inner(TokenText(k)) == Some(v) && k.end.cur == t
                <==> Clean(v) || (t == [] && NoQuotes(v) && NEWLINE !in v))
  {
    var q := [QUOTE] + t;
    var text := Quoted(v);
    Seqs.Assoc([QUOTE], text, q);
    Seqs.Assoc([QUOTE] + text, [QUOTE], t);
    Ascii(c, QUOTE, text + q);
    StringTokenIs(letter, digit, c);
    QuotedIs(v);
    hide *;
    var k := ScanAt(KvConfig(letter, digit), c);
    if Clean(v) { CleanHasNoQuotes(v); }
    if NoQuotes(v) {
      var e := StringEnd(Advance(c), 34, 0).0;
      StringOutcome(Advance(c), v, q, 0);
      AfterOutcome(e, q, t);
    }
    if k.end.cur == t { TextBetween(k, text, t); }
  }

  /** What is left behind the token. */
  lemma AfterOutcome(e: Cursor, q: seq<byte>, t: seq<byte>)
    requires q == [QUOTE] + t
    ensures e.cur == q ==> Advance(e).cur == t
    ensures |e.cur| < |q| ==> (Advance(e).cur == t <==> t == [])
    ensures |e.cur| > |q| && e.cur[0] == NEWLINE ==> Advance(e).cur != t
  {
    if e.cur == q { Ascii(e, QUOTE, t); }
    if |e.cur| > |q| && e.cur[0] == NEWLINE {
      assert e.cur == [NEWLINE] + e.cur[1..];
      Ascii(e, NEWLINE, e.cur[1..]);
    }
    hide Rune, Width;
  }

  lemma StringTokenIs(letter: int -> bool, digit: int -> bool, c: Cursor)
    requires Rune(c.cur) == 34
    ensures ScanAt(KvConfig(letter, digit), c) == Token(STRING, c, Advance(StringEnd(Advance(c), 34, 0).0))
    ensures QUOTE == 34 && NEWLINE == 10
  {
    hide ScanAt, Rune, Advance, StringEnd, IdentEnd, NumberEnd, CharEnd, CommentStarts, ExponentEnd, MantissaEnd;
    ScanHere(letter, digit, c);
  }

  lemma TextBetween(k: Token, v: seq<byte>, t: seq<byte>)
    requires k.start.cur == [QUOTE] + (v + ([QUOTE] + t)) && k.end.cur == t
    ensures |k.end.cur| <= |k.start.cur| && Inner(TokenText(k)) == Some(v)
  {
    var x := [QUOTE] + v + [QUOTE];
    assert k.start.cur == x + t;
    assert (x + t)[..|x|] == x;
    assert x[1..|x| - 1] == v;
  }

  // ---------------------------------------------------------------------------------------------
  // Numbers
  // ---------------------------------------------------------------------------------------------

  lemma {:induction false} MantissaEndsAt(c: Cursor, s: seq<byte>, t: seq<byte>)
    requires c.cur == s + t && D.AllDigits(s) && !IsDecimal(Rune(t))
    ensures MantissaEnd(c).cur == t
    decreases |s|
  {
    if s == [] {
      assert c.cur == t;
    } else {
      assert s == [s[0]] + s[1..];
      Seqs.Assoc([s[0]], s[1..], t);
      Ascii(c, s[0], s[1..] + t);
      hide Rune, Advance;
      MantissaEndsAt(Advance(c), s[1..], t);
    }
  }

  /** `t` does not continue a number. */
  lemma StopsNumber(t: seq<byte>)
    requires Stops(t) && (t == [] || t[0] != 46)
    ensures var r := Rune(t); !IsDecimal(r) && r != 46 && r != 101 && r != 69 && r != 120 && r != 88
  {
    RuneOfHead(t);
    hide Rune;
  }

  lemma NumberTokenIs(letter: int -> bool, digit: int -> bool, c: Cursor)
    requires IsDecimal(Rune(c.cur))
    ensures var f := KvConfig(letter, digit); ScanAt(f, c) == Token(NumberEnd(f, c).0, c, NumberEnd(f, c).1)
  {
    ScanHere(letter, digit, c);
    hide ScanAt, Rune, Advance, NumberEnd;
  }

  lemma DigitsText(k: Token, s: seq<byte>, t: seq<byte>)
    requires k.start.cur == s + t && k.end.cur == t
    ensures |k.end.cur| <= |k.start.cur| && TokenText(k) == s
  {
    assert (s + t)[..|s|] == s;
  }

  /** A number, given where its leading digits end. */
  lemma NumberEndIs(f: Config, c: Cursor, e: Cursor)
    requires e == if Rune(c.cur) == 48 then MantissaEnd(Advance(c)) else MantissaEnd(c)
    requires Rune(c.cur) == 48 ==> Rune(Advance(c).cur) != 120 && Rune(Advance(c).cur) != 88
    ensures FloatFollows(f, Rune(e.cur)) ==> NumberEnd(f, c) == (FLOAT, ExponentEnd(FractionEnd(e)))
    ensures !FloatFollows(f, Rune(e.cur)) ==> NumberEnd(f, c).0 == INT && NumberEnd(f, c).1.cur == e.cur
  {
    hide Rune, Advance, MantissaEnd, HexEnd, Has8or9, FloatFollows, ExponentEnd, FractionEnd;
  }

  /** The digits of `n` before `u`. */
  lemma LeadingDigits(c: Cursor, n: nat, u: seq<byte>)
    requires c.cur == D.Decimal(n) + u && !IsDecimal(Rune(u)) && Rune(u) != 120 && Rune(u) != 88
    ensures IsDecimal(Rune(c.cur)) && (Rune(c.cur) == 48 ==> Advance(c).cur == u)
    ensures (if Rune(c.cur) == 48 then MantissaEnd(Advance(c)) else MantissaEnd(c)).cur == u
  {
    var s := D.Decimal(n);
    D.DecimalReads(n);
    assert s == [s[0]] + s[1..] && D.IsDigit(s[0]) && D.ZERO == 48;
    Seqs.Assoc([s[0]], s[1..], u);
    Ascii(c, s[0], s[1..] + u);
    MantissaEndsAt(c, s, u);
    MantissaEndsAt(Advance(c), s[1..], u);
    if n == 0 {
      assert s[1..] + u == u;
    }
    hide Rune, Advance, MantissaEnd, D.AllDigits, D.Number;
  }

  /** A number without a fraction, up to `t`. */
  lemma IntEnd(f: Config, c: Cursor, n: nat, t: seq<byte>)
    requires c.cur == D.Decimal(n) + t && Stops(t) && (t == [] || t[0] != 46)
    ensures IsDecimal(Rune(c.cur)) && NumberEnd(f, c).0 == INT && NumberEnd(f, c).1.cur == t
  {
    StopsNumber(t);
    hide Rune, Advance, MantissaEnd, NumberEnd, Stops, D.Decimal;
    LeadingDigits(c, n, t);
    NumberEndIs(f, c, if Rune(c.cur) == 48 then MantissaEnd(Advance(c)) else MantissaEnd(c));
  }

  lemma IntToken(letter: int -> bool, digit: int -> bool, c: Cursor, n: nat, t: seq<byte>)
    requires c.cur == D.Decimal(n) + t && Stops(t) && (t == [] || t[0] != 46)
    ensures var k := ScanAt(KvConfig(letter, digit), c);
            k.start == c && k.tok == INT && k.end.cur == t && TokenText(k) == D.Decimal(n)
  {
    hide *;
    IntEnd(KvConfig(letter, digit), c, n, t);
    NumberTokenIs(letter, digit, c);
    DigitsText(ScanAt(KvConfig(letter, digit), c), D.Decimal(n), t);
  }

  lemma {:induction false} DigitsAreNumber(s: seq<byte>)
    requires D.AllDigits(s)
    ensures Digits(s, 10) == Some(D.Number(s)) && D.Number(s) >= 0
    decreases |s|
  {
    if s != [] {
      DigitsAreNumber(s[..|s| - 1]);
    }
  }

  lemma IntParses(n: nat)
    requires n < TWO_63
    ensures ParseInt0(D.Decimal(n)) == Some(n)
  {
    D.DecimalReads(n);
    DigitsAreNumber(D.Decimal(n));
    if n == 0 {
      assert Digits([48], 8) == Some(0) by { assert [48 as byte][..0] == []; }
    }
  }

  lemma FractionIs(e: Cursor, b: seq<byte>, t: seq<byte>)
    requires e.cur == [46] + (b + t) && D.AllDigits(b) && Stops(t) && (t == [] || t[0] != 46)
    ensures Rune(e.cur) == 46 && ExponentEnd(FractionEnd(e)).cur == t
  {
    StopsNumber(t);
    Ascii(e, 46, b + t);
    hide Rune, Advance, MantissaEnd, Stops, D.AllDigits;
    MantissaEndsAt(Advance(e), b, t);
  }

  /** A number with a fraction, up to `t`. */
  lemma FloatEnd(f: Config, c: Cursor, n: nat, b: seq<byte>, t: seq<byte>)
    requires f.floats
    requires c.cur == D.Decimal(n) + ([46] + (b + t)) && D.AllDigits(b) && Stops(t) && (t == [] || t[0] != 46)
    ensures IsDecimal(Rune(c.cur)) && NumberEnd(f, c).0 == FLOAT && NumberEnd(f, c).1.cur == t
  {
    var u := [46] + (b + t);
    assert Rune(u) == 46;
    hide Rune, Advance, MantissaEnd, NumberEnd, Stops, D.AllDigits, D.Decimal, ExponentEnd, FractionEnd;
    LeadingDigits(c, n, u);
    var e := if Rune(c.cur) == 48 then MantissaEnd(Advance(c)) else MantissaEnd(c);
    NumberEndIs(f, c, e);
    FractionIs(e, b, t);
  }

  lemma FloatToken(letter: int -> bool, digit: int -> bool, c: Cursor, n: nat, b: seq<byte>, t: seq<byte>)
    requires c.cur == D.Decimal(n) + [46] + b + t && D.AllDigits(b) && Stops(t) && (t == [] || t[0] != 46)
    ensures var k := ScanAt(KvConfig(letter, digit), c);
            k.start == c && k.tok == FLOAT && k.end.cur == t && TokenText(k) == D.Decimal(n) + [46] + b
  {
    assert KvConfig(letter, digit).floats;
    hide *;
    var s := D.Decimal(n);
    assert s + [46] + b + t == s + ([46] + (b + t));
    FloatEnd(KvConfig(letter, digit), c, n, b, t);
    NumberTokenIs(letter, digit, c);
    DigitsText(ScanAt(KvConfig(letter, digit), c), s + [46] + b, t);
  }

  lemma {:induction false} IndexOfDot(a: seq<byte>, b: seq<byte>)
    requires D.AllDigits(a)
    ensures Seqs.IndexOf(a + [46] + b, 46) == |a|
    decreases |a|
  {
    if a != [] {
      IndexOfDot(a[1..], b);
      assert (a + [46] + b)[1..] == a[1..] + [46] + b;
    }
  }

  /** An interval comes back from its printed digits exactly as its nanoseconds do. */
  lemma IntervalParses(seconds: nat, nanos: nat, rest: Cursor)
    requires seconds < TWO_63 && nanos < TWO_32 && D.Subsecond(nanos).Some?
    ensures IntervalOf(D.Decimal(seconds) + [46] + D.Subsecond(nanos).value, rest)
         == Good(Interval(seconds, nanos, []), rest)
      <==> 1 <= nanos < 1_000_000_000 || (1_000_000_000 <= nanos < TWO_31 && nanos % 10 != 0)
  {
    var a, b := D.Decimal(seconds), D.Subsecond(nanos).value;
    var text := a + [46] + b;
    D.DecimalReads(seconds);
    IndexOfDot(a, b);
    D.SubsecondRoundTrip(nanos);
    assert text[|a| + 1..] == b && text[..|a|] == a;
    hide D.Decimal, D.Number, D.AllDigits, D.Subsecond, D.Nanoseconds, Seqs.IndexOf;
  }
}
