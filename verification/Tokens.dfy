/** The scanner's language on a source that lies there as a whole: characters, positions and tokens.  The
    buffered scanner of `Scanner` is proved to compute exactly this. */
module Tokens {

  import opened Bits
  import opened Utf8

  const EOF := -1
  const IDENT := -2
  const INT := -3
  const FLOAT := -4
  const CHAR := -5
  const STRING := -6
  const COMMENT := -8

  /** A place in the source: `cur` starts with the look-ahead character, which has been read, so `line` and
      `column` (characters since the last newline, the look-ahead included) are behind it.  `errors` counts
      the errors reported so far. */
  datatype Cursor = Cursor(cur: seq<byte>, line: int, column: int, lastLineLen: int, errors: nat)

  /** The character at the head of `s`. */
  function Rune(s: seq<byte>): int {
    if s == [] then EOF else DecodeRune(s).0
  }

  function Width(s: seq<byte>): (w: nat)
    ensures w <= |s| && (s != [] ==> w > 0)
  {
    if s == [] then 0 else DecodeRune(s).1
  }

  /** Reading the character at the head of `u`, the one before it having taken `lead` bytes. */
  function Read(u: seq<byte>, lead: nat, line: int, column: int, lastLineLen: int, errors: nat): (c: Cursor)
    ensures c.cur == u
  {
    if u == [] then Cursor([], line, if lead > 0 then column + 1 else column, lastLineLen, errors)
    else
      var e := errors + if Illegal(u) || Rune(u) == 0 then 1 else 0;
      if Rune(u) == 10 then Cursor(u, line + 1, 0, column + 1, e)
      else Cursor(u, line, column + 1, lastLineLen, e)
  }

  function Advance(c: Cursor): (r: Cursor)
    ensures r.cur == c.cur[Width(c.cur)..]
    ensures c.cur != [] ==> |r.cur| < |c.cur|
  {
    Read(c.cur[Width(c.cur)..], Width(c.cur), c.line, c.column, c.lastLineLen, c.errors)
  }

  /** At the beginning a byte order mark is dropped. */
  function First(whole: seq<byte>): Cursor {
    var c := Read(whole, 0, 1, 0, 0, 0);
    if Rune(c.cur) == 0xFEFF then Advance(c) else c
  }

  function Err(c: Cursor): Cursor {
    c.(errors := c.errors + 1)
  }

  /** The settings of a scanner: which tokens it recognises, its white space (characters below 64) and what
      it takes for the i-th character of an identifier. */
  datatype Config = Config(
    idents: bool, ints: bool, floats: bool, chars: bool, strings: bool, rawStrings: bool, comments: bool,
    skipComments: bool, whitespace: set<int>, ident: (int, nat) -> bool)

  /** No identifier goes on at the end of the source. */
  ghost predicate Sane(f: Config) {
    forall i: nat :: !f.ident(EOF, i)
  }

  predicate IsWhite(f: Config, ch: int) {
    0 <= ch < 64 && ch in f.whitespace
  }

  function SkipWhite(f: Config, c: Cursor): (r: Cursor)
    ensures |r.cur| <= |c.cur|
    decreases |c.cur|
  {
    if c.cur != [] && IsWhite(f, Rune(c.cur)) then SkipWhite(f, Advance(c)) else c
  }

  function IdentEnd(f: Config, c: Cursor, i: nat): (r: Cursor)
    ensures |r.cur| <= |c.cur|
    decreases |c.cur|
  {
    if c.cur != [] && f.ident(Rune(c.cur), i) then IdentEnd(f, Advance(c), i + 1) else c
  }

  function DigitVal(ch: int): nat {
    if 48 <= ch <= 57 then ch - 48
    else if 97 <= ch <= 102 then ch - 97 + 10
    else if 65 <= ch <= 70 then ch - 65 + 10
    else 16
  }

  predicate IsDecimal(ch: int) {
    48 <= ch <= 57
  }

  function MantissaEnd(c: Cursor): (r: Cursor)
    ensures |r.cur| <= |c.cur|
    decreases |c.cur|
  {
    if c.cur != [] && IsDecimal(Rune(c.cur)) then MantissaEnd(Advance(c)) else c
  }

  function FractionEnd(c: Cursor): (r: Cursor)
    ensures |r.cur| <= |c.cur|
  {
    if Rune(c.cur) == 46 then MantissaEnd(Advance(c)) else c
  }

  function ExponentEnd(c: Cursor): (r: Cursor)
    ensures |r.cur| <= |c.cur|
  {
    if Rune(c.cur) == 101 || Rune(c.cur) == 69 then
      var d := Advance(c);
      MantissaEnd(if Rune(d.cur) == 45 || Rune(d.cur) == 43 then Advance(d) else d)
    else c
  }

  function HexEnd(c: Cursor): (r: Cursor)
    ensures |r.cur| <= |c.cur|
    decreases |c.cur|
  {
    if c.cur != [] && DigitVal(Rune(c.cur)) < 16 then HexEnd(Advance(c)) else c
  }

  /** Whether the digits at `c` include an 8 or a 9. */
  predicate Has8or9(c: Cursor)
    decreases |c.cur|
  {
    c.cur != [] && IsDecimal(Rune(c.cur)) && (Rune(c.cur) > 55 || Has8or9(Advance(c)))
  }

  predicate FloatFollows(f: Config, ch: int) {
    f.floats && (ch == 46 || ch == 101 || ch == 69)
  }

  /** `scanNumber`: the token and the character after it. */
  function NumberEnd(f: Config, c: Cursor): (r: (int, Cursor))
    ensures |r.1.cur| <= |c.cur|
    ensures IsDecimal(Rune(c.cur)) ==> |r.1.cur| < |c.cur|
  {
    if Rune(c.cur) == 48 then
      var d := Advance(c);
      if Rune(d.cur) == 120 || Rune(d.cur) == 88 then
        var e := Advance(d);
        var g := HexEnd(e);
        (INT, if DigitVal(Rune(e.cur)) < 16 then g else Err(g))
      else
        var e := MantissaEnd(d);
        if FloatFollows(f, Rune(e.cur)) then (FLOAT, ExponentEnd(FractionEnd(e)))
        else (INT, if Has8or9(d) then Err(e) else e)
    else
      var e := MantissaEnd(c);
      if FloatFollows(f, Rune(e.cur)) then (FLOAT, ExponentEnd(FractionEnd(e))) else (INT, e)
  }

  function DigitsEnd(c: Cursor, base: nat, n: nat): (r: Cursor)
    ensures |r.cur| <= |c.cur|
    decreases n
  {
    if n == 0 then c
    else if c.cur != [] && DigitVal(Rune(c.cur)) < base then DigitsEnd(Advance(c), base, n - 1)
    else Err(c)
  }

  /** `scanEscape`, from the backslash. */
  function EscapeEnd(c: Cursor, quote: int): (r: Cursor)
    ensures |r.cur| <= |c.cur| && (c.cur != [] ==> |r.cur| < |c.cur|)
  {
    var d := Advance(c);
    var ch := Rune(d.cur);
    if ch in {97, 98, 102, 110, 114, 116, 118, 92, quote} then Advance(d)
    else if 48 <= ch <= 55 then DigitsEnd(d, 8, 3)
    else if ch == 120 then DigitsEnd(Advance(d), 16, 2)
    else if ch == 117 then DigitsEnd(Advance(d), 16, 4)
    else if ch == 85 then DigitsEnd(Advance(d), 16, 8)
    else Err(d)
  }

  /** The loop of `scanString`; the second result counts characters. */
  function StringEnd(c: Cursor, quote: int, n: nat): (r: (Cursor, nat))
    ensures |r.0.cur| <= |c.cur|
    decreases |c.cur|
  {
    if Rune(c.cur) == quote then (c, n)
    else if c.cur == [] || Rune(c.cur) == 10 then (Err(c), n)
    else if Rune(c.cur) == 92 then StringEnd(EscapeEnd(c, quote), quote, n + 1)
    else StringEnd(Advance(c), quote, n + 1)
  }

  function RawStringEnd(c: Cursor): (r: Cursor)
    ensures |r.cur| <= |c.cur|
    decreases |c.cur|
  {
    if Rune(c.cur) == 96 then c
    else if c.cur == [] then Err(c)
    else RawStringEnd(Advance(c))
  }

  function CharEnd(c: Cursor): (r: Cursor)
    ensures |r.cur| <= |c.cur|
  {
    var e := StringEnd(c, 39, 0);
    if e.1 == 1 then e.0 else Err(e.0)
  }

  function LineCommentEnd(c: Cursor): (r: Cursor)
    ensures |r.cur| <= |c.cur|
    decreases |c.cur|
  {
    if c.cur == [] || Rune(c.cur) == 10 then c else LineCommentEnd(Advance(c))
  }

  function BlockCommentEnd(c: Cursor): (r: Cursor)
    ensures |r.cur| <= |c.cur|
    decreases |c.cur|
  {
    if c.cur == [] then Err(c)
    else
      var d := Advance(c);
      if Rune(c.cur) == 42 && Rune(d.cur) == 47 then Advance(d) else BlockCommentEnd(d)
  }

  /** `scanComment`, from the character after the first slash. */
  function CommentEnd(c: Cursor): (r: Cursor)
    ensures |r.cur| <= |c.cur|
  {
    if Rune(c.cur) == 47 then LineCommentEnd(Advance(c)) else BlockCommentEnd(Advance(c))
  }

  predicate CommentStarts(f: Config, c: Cursor) {
    Rune(c.cur) == 47 && f.comments && (Rune(Advance(c).cur) == 47 || Rune(Advance(c).cur) == 42)
  }

  /** The token that starts at `c`, and the character after it. */
  function TokenAt(f: Config, c: Cursor): (r: (int, Cursor))
    ensures |r.1.cur| <= |c.cur| && (c.cur != [] ==> |r.1.cur| < |c.cur|)
  {
    var ch := Rune(c.cur);
    if f.ident(ch, 0) then
      if f.idents then (IDENT, IdentEnd(f, Advance(c), 1)) else (ch, Advance(c))
    else if IsDecimal(ch) then
      if f.ints || f.floats then NumberEnd(f, c) else (ch, Advance(c))
    else if ch == 34 && f.strings then (STRING, Advance(StringEnd(Advance(c), 34, 0).0))
    else if ch == 39 && f.chars then (CHAR, Advance(CharEnd(Advance(c))))
    else if ch == 46 && f.floats && IsDecimal(Rune(Advance(c).cur)) then
      (FLOAT, ExponentEnd(MantissaEnd(Advance(c))))
    else if CommentStarts(f, c) then (COMMENT, CommentEnd(Advance(c)))
    else if ch == 96 && f.rawStrings then (STRING, Advance(RawStringEnd(Advance(c))))
    else (ch, Advance(c))
  }

  /** A scanned token, where it starts and where the source goes on. */
  datatype Token = Token(tok: int, start: Cursor, end: Cursor)

  /** `Scan`: white space and skipped comments come first. */
  function ScanAt(f: Config, c: Cursor): (r: Token)
    ensures |r.end.cur| <= |r.start.cur| <= |c.cur|
    ensures r.start.cur != [] ==> |r.end.cur| < |r.start.cur|
    decreases |c.cur|
  {
    var d := SkipWhite(f, c);
    if !f.ident(Rune(d.cur), 0) && CommentStarts(f, d) && f.skipComments then
      ScanAt(f, CommentEnd(Advance(d)))
    else Token(TokenAt(f, d).0, d, TokenAt(f, d).1)
  }

  lemma TokenEof(f: Config, c: Cursor)
    requires Sane(f)
    ensures TokenAt(f, c).0 == EOF <==> c.cur == []
  {
    hide DecodeRune, Advance, IdentEnd, StringEnd, CharEnd, RawStringEnd, CommentEnd, MantissaEnd, ExponentEnd, HexEnd;
    assert !f.ident(EOF, 0);
  }

  /** Only the end of the source scans as `EOF`. */
  lemma {:induction false} EofToken(f: Config, c: Cursor)
    requires Sane(f)
    ensures ScanAt(f, c).tok == EOF <==> ScanAt(f, c).start.cur == []
    decreases |c.cur|
  {
    var d := SkipWhite(f, c);
    TokenEof(f, d);
    hide TokenAt, SkipWhite, CommentEnd;
    if !f.ident(Rune(d.cur), 0) && CommentStarts(f, d) && f.skipComments {
      EofToken(f, CommentEnd(Advance(d)));
    }
  }

  /** The text between two places. */
  function Text(from: Cursor, to: Cursor): seq<byte>
    requires |to.cur| <= |from.cur|
  {
    from.cur[..|from.cur| - |to.cur|]
  }

  /** The line and column of the character at `c`, as `Scan` stores them. */
  function PlaceOf(c: Cursor): (int, int) {
    if c.column > 0 then (c.line, c.column) else (c.line - 1, c.lastLineLen)
  }

  // ---------------------------------------------------------------------------------------------
  // What lines and columns mean
  // ---------------------------------------------------------------------------------------------

  function Steps(c: Cursor, n: nat): Cursor {
    if n == 0 then c else Advance(Steps(c, n - 1))
  }

  /** The characters read by `n` steps. */
  function RunesRead(c: Cursor, n: nat): (r: seq<int>)
    ensures |r| == n
  {
    if n == 0 then [] else RunesRead(c, n - 1) + [Rune(Steps(c, n).cur)]
  }

  function Newlines(rs: seq<int>): nat {
    if rs == [] then 0 else Newlines(rs[..|rs| - 1]) + if rs[|rs| - 1] == 10 then 1 else 0
  }

  /** Characters behind the last newline of `rs`, after `before` others on the line. */
  function SinceNewline(rs: seq<int>, before: int): int {
    if rs == [] then before
    else if rs[|rs| - 1] == 10 then 0
    else SinceNewline(rs[..|rs| - 1], before) + 1
  }

  /** The line number counts newlines, the column characters of the line, as long as the source lasts. */
  lemma {:induction false} LinesAndColumns(c: Cursor, n: nat)
    requires Steps(c, n).cur != []
    ensures Steps(c, n).line == c.line + Newlines(RunesRead(c, n))
    ensures Steps(c, n).column == SinceNewline(RunesRead(c, n), c.column)
    decreases n
  {
    if n > 0 {
      LinesAndColumns(c, n - 1);
      assert RunesRead(c, n)[..n - 1] == RunesRead(c, n - 1);
    }
  }
}
