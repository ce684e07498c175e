/** The scanner over a sliding buffer of 1024 bytes.  However the reader splits the source, it delivers the
    characters, positions, errors and tokens that `Tokens` says, and token texts are slices of the source. */
module Scanner {

  import opened Bits
  import opened Utf8
  import opened Tokens
  import Seqs

  const BUF_LEN := 1024

  /** An `io.Reader` that delivers `rest` in pieces of its own choice.  It may deliver nothing without being
      at the end, but only `idle` more times. */
  class Source {
    var rest: seq<byte>
    var idle: nat

    constructor (rest: seq<byte>, idle: nat)
      ensures this.rest == rest && this.idle == idle
    {
      this.rest, this.idle := rest, idle;
    }

    /** `Read(buf[from:to])`. */
    method Read(buf: array<byte>, from: nat, to: nat) returns (n: nat, eof: bool)
      requires from < to <= buf.Length
      modifies this, buf
      ensures n <= to - from && n <= |old(rest)| && rest == old(rest)[n..]
      ensures buf[from..from + n] == old(rest)[..n]
      ensures buf[..from] == old(buf[..from])
      ensures eof ==> rest == []
      ensures n == 0 && !eof ==> idle < old(idle)
      ensures idle <= old(idle)
    {
      n :| 0 <= n <= to - from && n <= |rest| && (n > 0 || rest == [] || idle > 0);
      for k := 0 to n
        invariant rest == old(rest) && idle == old(idle)
        invariant buf[from..from + k] == rest[..k]
        invariant buf[..from] == old(buf[..from])
      {
        buf[from + k] := rest[k];
        assert buf[from..from + k + 1] == buf[from..from + k] + [rest[k]];
      }
      rest := rest[n..];
      eof :| eof ==> rest == [];
      if n == 0 && idle == 0 {
        eof := true;
      }
      if n == 0 && !eof {
        idle := idle - 1;
      }
    }
  }

  class Scanner {
    const src: Source
    const srcBuf: array<byte>
    var srcPos: nat
    var srcEnd: nat
    var srcBufOffset: nat
    var line: int
    var column: int
    var lastLineLen: int
    var lastCharLen: nat
    var tokBuf: seq<byte>
    var tokPos: int
    var tokEnd: int
    var ch: int
    var errorCount: nat
    const config: Config
    /** The embedded `Position`. */
    var offset: nat
    var posLine: int
    var posColumn: int

    ghost const whole: seq<byte>
    ghost var tokStart: nat

    /** The buffer holds a window of the source, with a sentinel behind it. */
    ghost predicate Window()
      reads `srcEnd, `srcBufOffset, src, srcBuf
    {
      && srcBuf.Length == BUF_LEN + 1
      && srcEnd <= BUF_LEN
      && srcBufOffset + srcEnd <= |whole|
      && srcBuf[..srcEnd] == whole[srcBufOffset..srcBufOffset + srcEnd]
      && src.rest == whole[srcBufOffset + srcEnd..]
      && srcBuf[srcEnd] == 0x80
    }

    /** The part of the invariant that holds at all times. */
    ghost predicate Buffered()
      reads `srcPos, `srcEnd, `srcBufOffset, src, srcBuf
    {
      Window() && srcPos <= srcEnd && srcBufOffset + srcEnd <= |whole|
    }

    /** The head of a token under collection. */
    ghost predicate Collected()
      reads `srcPos, `lastCharLen, `srcBufOffset, `tokPos, `tokBuf, `tokStart
    {
      tokPos >= 0 ==>
        && tokPos <= srcPos - lastCharLen
        && tokStart <= srcBufOffset + tokPos <= |whole|
        && tokBuf == whole[tokStart..srcBufOffset + tokPos]
    }

    /** What has not been read. */
    ghost function Unread(): seq<byte>
      reads `srcPos, `srcBufOffset
      requires srcBufOffset + srcPos <= |whole|
    {
      whole[srcBufOffset + srcPos..]
    }

    /** The same from the look-ahead character on. */
    ghost function Look(): seq<byte>
      reads `srcPos, `srcBufOffset, `lastCharLen
      requires srcBufOffset + srcPos <= |whole| && lastCharLen <= srcPos
    {
      whole[srcBufOffset + srcPos - lastCharLen..]
    }

    /** Between the first character and the end of each method: the look-ahead is the character before
        `srcPos`. */
    ghost predicate Inside()
      reads `srcPos, `srcEnd, `srcBufOffset, `lastCharLen, `tokPos, `tokBuf, `tokStart, src, srcBuf
    {
      && Buffered() && Collected()
      && lastCharLen <= srcPos && lastCharLen == Width(Look())
    }

    ghost function Here(): Cursor
      reads `srcPos, `srcEnd, `srcBufOffset, `lastCharLen, `tokPos, `tokBuf, `tokStart, src, srcBuf,
            `line, `column, `lastLineLen, `errorCount
      requires Inside()
    {
      Cursor(Look(), line, column, lastLineLen, errorCount)
    }

    /** Before anything has been read. */
    ghost predicate Untouched()
      reads `srcPos, `srcEnd, `srcBufOffset, `lastCharLen, `tokPos, `tokBuf, `tokStart, src, srcBuf,
            `line, `column, `lastLineLen, `errorCount
    {
      && Buffered() && srcPos == 0 && srcBufOffset == 0 && lastCharLen == 0 && tokPos == -1
      && line == 1 && column == 0 && lastLineLen == 0 && errorCount == 0
    }

    ghost predicate Valid()
      reads `srcPos, `srcEnd, `srcBufOffset, `lastCharLen, `tokPos, `tokBuf, `tokStart, src, srcBuf,
            `line, `column, `lastLineLen, `errorCount, `ch, `tokEnd, `offset
    {
      && Sane(config)
      && if ch == -2 then Untouched() else Ahead(ch) && TokenReady()
    }

    /** `r` is the look-ahead character. */
    ghost predicate Ahead(r: int)
      reads `srcPos, `srcEnd, `srcBufOffset, `lastCharLen, `tokPos, `tokBuf, `tokStart, src, srcBuf,
            `line, `column, `lastLineLen, `errorCount
    {
      Inside() && r == Rune(Here().cur)
    }

    /** After a scan the token ends before the look-ahead character. */
    ghost predicate TokenReady()
      reads `tokPos, `tokEnd, `srcPos, `lastCharLen, `tokStart, `offset
    {
      tokPos >= 0 ==> tokEnd == srcPos - lastCharLen && tokStart == offset
    }

    /** The state as `Tokens` sees it. */
    ghost function At(): Cursor
      reads `srcPos, `srcEnd, `srcBufOffset, `lastCharLen, `tokPos, `tokBuf, `tokStart, src, srcBuf,
            `line, `column, `lastLineLen, `errorCount, `ch, `tokEnd, `offset
      requires Valid()
    {
      if ch == -2 then First(whole) else Here()
    }

    constructor (src: Source, config: Config)
      requires Sane(config)
      ensures Valid() && fresh(srcBuf) && this.src == src && this.config == config && ch == -2
      ensures whole == src.rest && At() == First(src.rest)
    {
      this.src, this.config := src, config;
      srcBuf := new byte[BUF_LEN + 1];
      srcPos, srcEnd, srcBufOffset := 0, 0, 0;
      line, column, lastLineLen, lastCharLen := 1, 0, 0, 0;
      tokBuf, tokPos, tokEnd, ch := [], -1, 0, -2;
      errorCount, offset, posLine, posColumn := 0, 0, 0, 0;
      whole, tokStart := src.rest, 0;
      new;
      srcBuf[0] := 0x80;
    }

    /** What lies in the buffer is a slice of the source. */
    lemma InBuffer(i: nat, j: nat)
      requires Buffered() && i <= j <= srcEnd
      ensures srcBuf[i..j] == whole[srcBufOffset + i..srcBufOffset + j]
    {
      Seqs.Inner(whole, srcBufOffset, srcBufOffset + srcEnd, i, j);
      assert srcBuf[..srcEnd][i..j] == srcBuf[i..j];
    }

    /** Moves the unread bytes to the front, reads more behind them and puts the sentinel there. */
    method Refill() returns (n: nat, eof: bool)
      requires Buffered() && srcPos + 4 > srcEnd
      modifies `srcPos, `srcEnd, `srcBufOffset, src, srcBuf
      ensures Buffered() && Unread() == old(Unread())
      ensures srcPos == 0 && srcBufOffset == old(srcBufOffset + srcPos)
      ensures srcEnd <= BUF_LEN && (src.rest == [] ==> srcEnd == |Unread()|)
      ensures eof ==> src.rest == []
      ensures !eof ==> |src.rest| + src.idle < |old(src.rest)| + old(src.idle)
    {
      hide Window;
      var i := srcEnd - srcPos;
      InBuffer(srcPos, srcEnd);
      Sentinel();
      ghost var base, end := srcBufOffset + srcPos, srcBufOffset + srcEnd;
      ghost var head := whole[base..end];
      RestIs();
      n, eof := Reload(srcPos, srcEnd);
      Seqs.Extends(whole, base, end, n);
      srcBufOffset := srcBufOffset + srcPos;
      srcPos := 0;
      srcEnd := i + n;
      MakeWindow(base);
    }

    lemma RestIs()
      requires Buffered()
      ensures src.rest == whole[srcBufOffset + srcEnd..] && srcBuf.Length == BUF_LEN + 1
    {
    }

    lemma MakeWindow(base: nat)
      requires srcBufOffset == base && srcEnd <= BUF_LEN && srcBuf.Length == BUF_LEN + 1 && base + srcEnd <= |whole|
      requires srcBuf[..srcEnd] == whole[base..base + srcEnd] && src.rest == whole[base + srcEnd..]
      requires srcBuf[srcEnd] == 0x80
      ensures Window()
    {
    }

    /** Moves the bytes from `from` to `to` to the front and reads more behind them. */
    method Reload(from: nat, to: nat) returns (n: nat, eof: bool)
      requires from <= to <= BUF_LEN && to - from <= 3 && srcBuf.Length == BUF_LEN + 1
      modifies src, srcBuf
      ensures n <= |old(src.rest)| && to - from + n <= BUF_LEN && src.rest == old(src.rest)[n..]
      ensures srcBuf[..to - from + n] == old(srcBuf[from..to]) + old(src.rest)[..n]
      ensures srcBuf[to - from + n] == 0x80
      ensures eof ==> src.rest == []
      ensures !eof ==> |src.rest| + src.idle < |old(src.rest)| + old(src.idle)
    {
      var i := to - from;
      MoveDown(srcBuf, from, to);
      n, eof := src.Read(srcBuf, i, BUF_LEN);
      assert srcBuf[..i + n] == srcBuf[..i] + srcBuf[i..i + n];
      SetSentinel(i + n);
    }

    method SetSentinel(k: nat)
      requires k < srcBuf.Length
      modifies srcBuf
      ensures srcBuf[k] == 0x80 && srcBuf[..k] == old(srcBuf[..k])
    {
      srcBuf[k] := 0x80;
    }

    /** The refill loop of `next`: afterwards the buffer decides the next character, or the source ends here. */
    method Fill() returns (eof: bool)
      requires Buffered() && Collected() && srcBuf.Length == BUF_LEN + 1 && srcEnd <= BUF_LEN
      modifies `srcPos, `srcEnd, `srcBufOffset, `tokBuf, `tokPos, src, srcBuf
      ensures Buffered() && Unread() == old(Unread())
      ensures eof <==> Unread() == []
      ensures eof ==> srcPos == 0
      ensures !eof ==> srcPos < srcEnd && (FullRune(srcBuf[srcPos..srcEnd]) || srcEnd - srcPos == |Unread()|)
      ensures tokPos >= 0 <==> old(tokPos) >= 0
      ensures Saved()
    {
      hide Window;
      eof := false;
      while srcPos + 4 > srcEnd && !FullRune(srcBuf[srcPos..srcEnd])
        invariant Buffered() && Unread() == old(Unread()) && srcEnd <= BUF_LEN
        invariant tokPos >= 0 <==> old(tokPos) >= 0
        invariant Saved()
        decreases |src.rest| + src.idle
      {
        if tokPos >= 0 {
          Save();
        }
        var n;
        n, eof := Refill();
        if eof {
          eof := srcEnd == 0;
          return;
        }
      }
      if srcPos + 4 <= srcEnd {
        FourAreFull(srcBuf[srcPos..srcEnd]);
      }
    }

    ghost predicate Saved()
      reads `srcPos, `srcBufOffset, `tokPos, `tokBuf, `tokStart
    {
      tokPos >= 0 ==>
        && tokPos <= srcPos
        && tokStart <= srcBufOffset + tokPos <= |whole|
        && tokBuf == whole[tokStart..srcBufOffset + tokPos]
    }

    /** Saves the text of the token so far. */
    method Save()
      requires Buffered() && Saved() && tokPos >= 0
      modifies `tokBuf, `tokPos
      ensures tokPos == 0 && tokStart <= srcBufOffset + srcPos && tokBuf == whole[tokStart..srcBufOffset + srcPos]
    {
      InBuffer(tokPos, srcPos);
      Seqs.Split(whole, tokStart, srcBufOffset + tokPos, srcBufOffset + srcPos);
      tokBuf := tokBuf + srcBuf[tokPos..srcPos];
      tokPos := 0;
    }

    /** What lies in the buffer at `srcPos` is the head of the unread part. */
    lemma AtHead()
      requires Buffered() && srcPos < srcEnd
      ensures Unread() != [] && Unread()[0] == srcBuf[srcPos] && srcEnd - srcPos <= |Unread()|
      ensures Unread()[..srcEnd - srcPos] == srcBuf[srcPos..srcEnd]
    {
      InBuffer(srcPos, srcEnd);
      Seqs.Split(whole, srcBufOffset + srcPos, srcBufOffset + srcEnd, |whole|);
      assert whole[srcBufOffset + srcPos..srcBufOffset + srcEnd][0] == srcBuf[srcPos];
    }

    /** The end of `next`: moves over the character `r` and counts it. */
    method Take(r: int, width: nat)
      requires Buffered() && Saved() && Unread() != [] && srcPos + width <= srcEnd
      requires r == Rune(Unread()) && width == Width(Unread())
      modifies `srcPos, `lastCharLen, `column, `line, `lastLineLen, `errorCount
      ensures Inside()
      ensures Here() == Read(old(Unread()), old(lastCharLen), old(line), old(column), old(lastLineLen), old(errorCount))
    {
      hide DecodeRune, Illegal, Read, Rune, Width, Window;
      ReadIs(Unread(), lastCharLen, line, column, lastLineLen, errorCount);
      HeadOf(Unread());
      var illegal := r == RUNE_ERROR && width == 1;
      srcPos, lastCharLen, column := srcPos + width, width, column + 1;
      if illegal || r == 0 {
        errorCount := errorCount + 1;
      } else if r == 10 {
        line, lastLineLen, column := line + 1, column, 0;
      }
    }

    /** At the end of the source the column still moves behind the last character, once. */
    method TakeEnd()
      requires Buffered() && Saved() && Unread() == [] && srcPos == 0
      modifies `lastCharLen, `column
      ensures Inside()
      ensures Here() == Read([], old(lastCharLen), line, old(column), lastLineLen, errorCount)
    {
      if lastCharLen > 0 {
        column := column + 1;
      }
      lastCharLen := 0;
    }

    /** The uncommon case of `next`: the character at `srcPos` and its width, `(EOF, 0)` at the end. */
    method Decode() returns (r: int, width: nat)
      requires Buffered() && Collected()
      modifies `srcPos, `srcEnd, `srcBufOffset, `tokBuf, `tokPos, src, srcBuf
      ensures Buffered() && Saved() && Unread() == old(Unread())
      ensures r == Rune(Unread()) && width == Width(Unread()) && srcPos + width <= srcEnd
      ensures Unread() == [] ==> srcPos == 0
      ensures tokPos >= 0 <==> old(tokPos) >= 0
    {
      hide DecodeRune, FullRune, Illegal;
      HeadOf(Unread());
      var eof := Fill();
      if eof {
        return EOF, 0;
      }
      AtHead();
      r, width := srcBuf[srcPos] as int, 1;
      if r >= 0x80 {
        FullDecides(Unread(), srcEnd - srcPos);
        var d := DecodeRune(srcBuf[srcPos..srcEnd]);
        r, width := d.0, d.1;
      }
    }

    /** `next`. */
    method NextRune() returns (r: int)
      requires Buffered() && Collected()
      modifies `srcPos, `srcEnd, `srcBufOffset, `line, `column, `lastLineLen, `lastCharLen, `tokBuf, `tokPos,
               `errorCount, src, srcBuf
      ensures Ahead(r)
      ensures Here() == Read(old(Unread()), old(lastCharLen), old(line), old(column), old(lastLineLen), old(errorCount))
      ensures tokPos >= 0 <==> old(tokPos) >= 0
    {
      hide DecodeRune, FullRune, Illegal, Read, Rune, Width, Window;
      HeadOf(Unread());
      Sentinel();
      var width := 1;
      r := srcBuf[srcPos] as int;
      if r >= 0x80 {
        r, width := Decode();
        if r == EOF {
          TakeEnd();
          return;
        }
      } else {
        AtHead();
      }
      Take(r, width);
    }

    lemma Sentinel()
      requires Buffered()
      ensures srcBuf.Length == BUF_LEN + 1 && srcEnd <= BUF_LEN && srcBuf[srcEnd] == 0x80
    {
    }

    /** `next` once the first character has been read. */
    method Step() returns (r: int)
      requires Inside()
      modifies `srcPos, `srcEnd, `srcBufOffset, `line, `column, `lastLineLen, `lastCharLen, `tokBuf, `tokPos,
               `errorCount, src, srcBuf
      ensures Ahead(r) && Here() == Advance(old(Here()))
      ensures tokPos >= 0 <==> old(tokPos) >= 0
    {
      AdvanceReads();
      hide *;
      r := NextRune();
    }

    lemma AdvanceReads()
      requires Inside()
      ensures Buffered() && Collected()
      ensures Advance(Here()) == Read(Unread(), lastCharLen, line, column, lastLineLen, errorCount)
    {
      hide Window, Read, Rune, Width;
      Seqs.Split(whole, srcBufOffset + srcPos - lastCharLen, srcBufOffset + srcPos, |whole|);
    }

    method Error()
      requires Inside()
      modifies `errorCount
      ensures Inside() && Here() == Err(old(Here()))
    {
      errorCount := errorCount + 1;
    }

    method ScanIdentifier() returns (r: int)
      requires Inside() && Sane(config)
      modifies `srcPos, `srcEnd, `srcBufOffset, `line, `column, `lastLineLen, `lastCharLen, `tokBuf, `tokPos,
               `errorCount, src, srcBuf
      ensures Ahead(r) && Here() == IdentEnd(config, Advance(old(Here())), 1)
      ensures tokPos >= 0 <==> old(tokPos) >= 0
    {
      hide Inside, Read, Advance, Look, Rune;
      r := Step();
      var i := 1;
      while config.ident(r, i)
        invariant Ahead(r) && (tokPos >= 0 <==> old(tokPos) >= 0) && i >= 1
        invariant IdentEnd(config, Here(), i) == IdentEnd(config, Advance(old(Here())), 1)
        decreases |Here().cur|
      {
        EndOrNot(Here());
        r := Step();
        i := i + 1;
      }
    }

    method ScanMantissa(ch: int) returns (r: int)
      requires Ahead(ch)
      modifies `srcPos, `srcEnd, `srcBufOffset, `line, `column, `lastLineLen, `lastCharLen, `tokBuf, `tokPos,
               `errorCount, src, srcBuf
      ensures Ahead(r) && Here() == MantissaEnd(old(Here()))
      ensures tokPos >= 0 <==> old(tokPos) >= 0
    {
      hide Inside, Read, Advance, Look, Rune;
      r := ch;
      while IsDecimal(r)
        invariant Ahead(r) && (tokPos >= 0 <==> old(tokPos) >= 0)
        invariant MantissaEnd(Here()) == MantissaEnd(old(Here()))
        decreases |Here().cur|
      {
        NotAtEnd(Here());
        r := Step();
      }
    }

    method ScanFraction(ch: int) returns (r: int)
      requires Ahead(ch)
      modifies `srcPos, `srcEnd, `srcBufOffset, `line, `column, `lastLineLen, `lastCharLen, `tokBuf, `tokPos,
               `errorCount, src, srcBuf
      ensures Ahead(r) && Here() == FractionEnd(old(Here()))
      ensures tokPos >= 0 <==> old(tokPos) >= 0
    {
      hide Inside, Read, Advance, Look, Rune, MantissaEnd;
      r := ch;
      if r == 46 {
        r := Step();
        r := ScanMantissa(r);
      }
    }

    method ScanExponent(ch: int) returns (r: int)
      requires Ahead(ch)
      modifies `srcPos, `srcEnd, `srcBufOffset, `line, `column, `lastLineLen, `lastCharLen, `tokBuf, `tokPos,
               `errorCount, src, srcBuf
      ensures Ahead(r) && Here() == ExponentEnd(old(Here()))
      ensures tokPos >= 0 <==> old(tokPos) >= 0
    {
      hide Inside, Read, Advance, Look, Rune, MantissaEnd;
      r := ch;
      if r == 101 || r == 69 {
        r := Step();
        if r == 45 || r == 43 {
          r := Step();
        }
        r := ScanMantissa(r);
      }
    }

    /** The digits of a hexadecimal number. */
    method ScanHex(ch: int) returns (r: int, hasMantissa: bool)
      requires Ahead(ch)
      modifies `srcPos, `srcEnd, `srcBufOffset, `line, `column, `lastLineLen, `lastCharLen, `tokBuf, `tokPos,
               `errorCount, src, srcBuf
      ensures Ahead(r) && Here() == HexEnd(old(Here()))
      ensures hasMantissa <==> DigitVal(ch) < 16
      ensures tokPos >= 0 <==> old(tokPos) >= 0
    {
      hide Inside, Read, Advance, Look, Rune;
      r, hasMantissa := ch, false;
      while DigitVal(r) < 16
        invariant Ahead(r) && (tokPos >= 0 <==> old(tokPos) >= 0)
        invariant HexEnd(Here()) == HexEnd(old(Here()))
        invariant if hasMantissa then DigitVal(ch) < 16 else r == ch
        decreases |Here().cur|
      {
        NotAtEnd(Here());
        r := Step();
        hasMantissa := true;
      }
    }

    /** The digits after a leading zero. */
    method ScanOctal(ch: int) returns (r: int, has8or9: bool)
      requires Ahead(ch)
      modifies `srcPos, `srcEnd, `srcBufOffset, `line, `column, `lastLineLen, `lastCharLen, `tokBuf, `tokPos,
               `errorCount, src, srcBuf
      ensures Ahead(r) && Here() == MantissaEnd(old(Here()))
      ensures has8or9 <==> Has8or9(old(Here()))
      ensures tokPos >= 0 <==> old(tokPos) >= 0
    {
      hide Inside, Read, Advance, Look, Rune;
      r, has8or9 := ch, false;
      while IsDecimal(r)
        invariant Ahead(r) && (tokPos >= 0 <==> old(tokPos) >= 0)
        invariant MantissaEnd(Here()) == MantissaEnd(old(Here()))
        invariant has8or9 || Has8or9(Here()) <==> Has8or9(old(Here()))
        decreases |Here().cur|
      {
        NotAtEnd(Here());
        if r > 55 {
          has8or9 := true;
        }
        r := Step();
      }
    }

    /** A fraction and an exponent. */
    method ScanFloat(ch: int) returns (r: int)
      requires Ahead(ch)
      modifies `srcPos, `srcEnd, `srcBufOffset, `line, `column, `lastLineLen, `lastCharLen, `tokBuf, `tokPos,
               `errorCount, src, srcBuf
      ensures Ahead(r) && Here() == ExponentEnd(FractionEnd(old(Here())))
      ensures tokPos >= 0 <==> old(tokPos) >= 0
    {
      hide *;
      r := ScanFraction(ch);
      r := ScanExponent(r);
    }

    /** A number behind its leading zero. */
    method ScanZero() returns (tok: int, r: int)
      requires Inside() && Rune(Here().cur) == 48
      modifies `srcPos, `srcEnd, `srcBufOffset, `line, `column, `lastLineLen, `lastCharLen, `tokBuf, `tokPos,
               `errorCount, src, srcBuf
      ensures Ahead(r) && (tok, Here()) == NumberEnd(config, old(Here()))
      ensures tokPos >= 0 <==> old(tokPos) >= 0
    {
      hide Inside, Read, Advance, Look, Rune, MantissaEnd, FractionEnd, ExponentEnd, HexEnd, Has8or9, DigitVal,
           FloatFollows;
      r := Step();
      if r == 120 || r == 88 {
        r := Step();
        var hasMantissa;
        r, hasMantissa := ScanHex(r);
        if !hasMantissa {
          Error();
        }
        return INT, r;
      }
      var has8or9;
      r, has8or9 := ScanOctal(r);
      if FloatFollows(config, r) {
        r := ScanFloat(r);
        return FLOAT, r;
      }
      if has8or9 {
        Error();
      }
      return INT, r;
    }

    method ScanNumber(ch: int) returns (tok: int, r: int)
      requires Ahead(ch)
      modifies `srcPos, `srcEnd, `srcBufOffset, `line, `column, `lastLineLen, `lastCharLen, `tokBuf, `tokPos,
               `errorCount, src, srcBuf
      ensures Ahead(r) && (tok, Here()) == NumberEnd(config, old(Here()))
      ensures tokPos >= 0 <==> old(tokPos) >= 0
    {
      hide Inside, Read, Advance, Look, Rune, MantissaEnd, FractionEnd, ExponentEnd, HexEnd, Has8or9, DigitVal,
           FloatFollows;
      if ch == 48 {
        tok, r := ScanZero();
        return;
      }
      r := ScanMantissa(ch);
      if FloatFollows(config, r) {
        r := ScanFloat(r);
        return FLOAT, r;
      }
      return INT, r;
    }

    method ScanDigits(ch: int, base: nat, n: nat) returns (r: int)
      requires Ahead(ch) && base <= 16
      modifies `srcPos, `srcEnd, `srcBufOffset, `line, `column, `lastLineLen, `lastCharLen, `tokBuf, `tokPos,
               `errorCount, src, srcBuf
      ensures Ahead(r) && Here() == DigitsEnd(old(Here()), base, n)
      ensures tokPos >= 0 <==> old(tokPos) >= 0
    {
      hide Inside, Read, Advance, Look, Rune;
      r := ch;
      var k := n;
      while k > 0 && DigitVal(r) < base
        invariant Ahead(r) && (tokPos >= 0 <==> old(tokPos) >= 0)
        invariant DigitsEnd(Here(), base, k) == DigitsEnd(old(Here()), base, n)
      {
        NotAtEnd(Here());
        r := Step();
        k := k - 1;
      }
      if k > 0 {
        Error();
      }
    }

    method ScanEscape(quote: int) returns (r: int)
      requires Inside()
      modifies `srcPos, `srcEnd, `srcBufOffset, `line, `column, `lastLineLen, `lastCharLen, `tokBuf, `tokPos,
               `errorCount, src, srcBuf
      ensures Ahead(r) && Here() == EscapeEnd(old(Here()), quote)
      ensures tokPos >= 0 <==> old(tokPos) >= 0
    {
      hide Inside, Read, Advance, Look, Rune, DigitsEnd;
      r := Step();
      if r in {97, 98, 102, 110, 114, 116, 118, 92, quote} {
        r := Step();
      } else if 48 <= r <= 55 {
        r := ScanDigits(r, 8, 3);
      } else if r == 120 {
        r := Step();
        r := ScanDigits(r, 16, 2);
      } else if r == 117 {
        r := Step();
        r := ScanDigits(r, 16, 4);
      } else if r == 85 {
        r := Step();
        r := ScanDigits(r, 16, 8);
      } else {
        Error();
      }
    }

    method ScanString(quote: int) returns (n: nat)
      requires Inside() && quote >= 0
      modifies `srcPos, `srcEnd, `srcBufOffset, `line, `column, `lastLineLen, `lastCharLen, `tokBuf, `tokPos,
               `errorCount, src, srcBuf
      ensures Inside() && (Here(), n) == StringEnd(Advance(old(Here())), quote, 0)
      ensures tokPos >= 0 <==> old(tokPos) >= 0
    {
      hide Inside, Read, Advance, Look, Rune, EscapeEnd;
      var ch := Step();
      n := 0;
      while ch != quote
        invariant Ahead(ch) && (tokPos >= 0 <==> old(tokPos) >= 0)
        invariant StringEnd(Here(), quote, n) == StringEnd(Advance(old(Here())), quote, 0)
        decreases |Here().cur|
      {
        EndOrNot(Here());
        if ch == 10 || ch < 0 {
          Error();
          return;
        }
        if ch == 92 {
          ch := ScanEscape(quote);
        } else {
          ch := Step();
        }
        n := n + 1;
      }
    }

    method ScanRawString()
      requires Inside()
      modifies `srcPos, `srcEnd, `srcBufOffset, `line, `column, `lastLineLen, `lastCharLen, `tokBuf, `tokPos,
               `errorCount, src, srcBuf
      ensures Inside() && Here() == RawStringEnd(Advance(old(Here())))
      ensures tokPos >= 0 <==> old(tokPos) >= 0
    {
      hide Inside, Read, Advance, Look, Rune;
      var ch := Step();
      while ch != 96
        invariant Ahead(ch) && (tokPos >= 0 <==> old(tokPos) >= 0)
        invariant RawStringEnd(Here()) == RawStringEnd(Advance(old(Here())))
        decreases |Here().cur|
      {
        EndOrNot(Here());
        if ch < 0 {
          Error();
          return;
        }
        ch := Step();
      }
    }

    method ScanChar()
      requires Inside()
      modifies `srcPos, `srcEnd, `srcBufOffset, `line, `column, `lastLineLen, `lastCharLen, `tokBuf, `tokPos,
               `errorCount, src, srcBuf
      ensures Inside() && Here() == CharEnd(Advance(old(Here())))
      ensures tokPos >= 0 <==> old(tokPos) >= 0
    {
      hide Inside, Read, Advance, Look, Rune, StringEnd;
      var n := ScanString(39);
      if n != 1 {
        Error();
      }
    }

    method ScanComment(ch: int) returns (r: int)
      requires Ahead(ch)
      modifies `srcPos, `srcEnd, `srcBufOffset, `line, `column, `lastLineLen, `lastCharLen, `tokBuf, `tokPos,
               `errorCount, src, srcBuf
      ensures Ahead(r) && Here() == CommentEnd(old(Here()))
      ensures tokPos >= 0 <==> old(tokPos) >= 0
    {
      hide Inside, Read, Advance, Look, Rune;
      if ch == 47 {
        r := Step();
        while r != 10 && r >= 0
          invariant Ahead(r) && (tokPos >= 0 <==> old(tokPos) >= 0)
          invariant LineCommentEnd(Here()) == LineCommentEnd(Advance(old(Here())))
          decreases |Here().cur|
        {
          EndOrNot(Here());
          r := Step();
        }
        EndOrNot(Here());
        return;
      }
      r := Step();
      while true
        invariant Ahead(r) && (tokPos >= 0 <==> old(tokPos) >= 0)
        invariant BlockCommentEnd(Here()) == BlockCommentEnd(Advance(old(Here())))
        decreases |Here().cur|
      {
        EndOrNot(Here());
        if r < 0 {
          Error();
          return;
        }
        var ch0 := r;
        r := Step();
        if ch0 == 42 && r == 47 {
          r := Step();
          return;
        }
      }
    }

    /** The switch of `Scan`; skipped comments are dealt with before. */
    method ScanToken(ch: int) returns (tok: int, r: int)
      requires Ahead(ch) && Sane(config)
      modifies `srcPos, `srcEnd, `srcBufOffset, `line, `column, `lastLineLen, `lastCharLen, `tokBuf, `tokPos,
               `errorCount, src, srcBuf
      ensures Ahead(r) && (tok, Here()) == TokenAt(config, old(Here()))
      ensures tokPos >= 0 <==> old(tokPos) >= 0
    {
      hide Inside, Read, Advance, Look, Rune, MantissaEnd, ExponentEnd, NumberEnd, IdentEnd, StringEnd, CharEnd,
           RawStringEnd, CommentEnd, IsDecimal;
      r := ch;
      tok := ch;
      if config.ident(ch, 0) {
        if config.idents {
          tok := IDENT;
          r := ScanIdentifier();
        } else {
          r := Step();
        }
      } else if IsDecimal(ch) {
        if config.ints || config.floats {
          tok, r := ScanNumber(ch);
        } else {
          r := Step();
        }
      } else if ch == 34 {
        if config.strings {
          var n := ScanString(34);
          tok := STRING;
        }
        r := Step();
      } else if ch == 39 {
        if config.chars {
          ScanChar();
          tok := CHAR;
        }
        r := Step();
      } else if ch == 46 {
        r := Step();
        if IsDecimal(r) && config.floats {
          tok := FLOAT;
          r := ScanMantissa(r);
          r := ScanExponent(r);
        }
      } else if ch == 47 {
        r := Step();
        if (r == 47 || r == 42) && config.comments {
          r := ScanComment(r);
          tok := COMMENT;
        }
      } else if ch == 96 {
        if config.rawStrings {
          ScanRawString();
          tok := STRING;
        }
        r := Step();
      } else {
        r := Step();
      }
    }

    lemma FirstIs()
      requires Untouched()
      ensures Buffered() && Collected() && Unread() == whole
      ensures line == 1 && column == 0 && lastLineLen == 0 && lastCharLen == 0 && errorCount == 0 && tokPos == -1
      ensures var c := Read(whole, 0, 1, 0, 0, 0); First(whole) == if Rune(c.cur) == 0xFEFF then Advance(c) else c
    {
    }

    /** The first character, or the second one if the first is a byte order mark. */
    method PeekFirst() returns (r: int)
      requires Untouched()
      modifies `srcPos, `srcEnd, `srcBufOffset, `line, `column, `lastLineLen, `lastCharLen, `tokBuf, `tokPos,
               `errorCount, src, srcBuf
      ensures Ahead(r) && tokPos < 0 && Here() == First(whole)
    {
      FirstIs();
      hide Inside, Untouched, Window, Buffered, Collected, Look, Unread, Here, Read, Rune, Width, Advance, First;
      r := NextRune();
      if r == 0xFEFF {
        r := Step();
      }
    }

    /** `Peek`. */
    method Peek() returns (r: int)
      requires Valid()
      modifies `srcPos, `srcEnd, `srcBufOffset, `line, `column, `lastLineLen, `lastCharLen, `tokBuf, `tokPos,
               `errorCount, `ch, src, srcBuf
      ensures Valid() && ch != -2 && At() == old(At()) && r == ch == Rune(At().cur)
      ensures old(ch) != -2 ==> tokPos == old(tokPos) && tokBuf == old(tokBuf)
      ensures old(ch) == -2 ==> tokPos < 0
    {
      hide Inside, Untouched, Read, Rune, Advance, First, Sane;
      if ch == -2 {
        ch := PeekFirst();
        NeverMinusTwo(Here().cur);
      }
      r := ch;
    }

    /** `Next`. */
    method Next() returns (r: int)
      requires Valid()
      modifies `srcPos, `srcEnd, `srcBufOffset, `line, `column, `lastLineLen, `lastCharLen, `tokBuf, `tokPos,
               `errorCount, `ch, `posLine, src, srcBuf
      ensures Valid() && ch != -2 && r == Rune(old(At()).cur) && At() == Advance(old(At()))
      ensures posLine == 0 && tokPos < 0
    {
      hide Inside, Untouched, Read, Rune, Advance, First, Sane;
      posLine := 0;
      r := Peek();
      StopCollecting();
      ch := Step();
      NeverMinusTwo(Here().cur);
    }

    /** `s.tokPos = -1`. */
    method StopCollecting()
      requires Inside()
      modifies `tokPos
      ensures Inside() && Here() == old(Here()) && tokPos == -1
    {
      tokPos := -1;
    }

    method SkipWhitespace(ch: int) returns (r: int)
      requires Ahead(ch)
      modifies `srcPos, `srcEnd, `srcBufOffset, `line, `column, `lastLineLen, `lastCharLen, `tokBuf, `tokPos,
               `errorCount, src, srcBuf
      ensures Ahead(r) && Here() == SkipWhite(config, old(Here()))
      ensures tokPos >= 0 <==> old(tokPos) >= 0
    {
      hide Inside, Read, Advance, Look, Rune;
      r := ch;
      while IsWhite(config, r)
        invariant Ahead(r) && (tokPos >= 0 <==> old(tokPos) >= 0)
        invariant SkipWhite(config, Here()) == SkipWhite(config, old(Here()))
        decreases |Here().cur|
      {
        NotAtEnd(Here());
        r := Step();
      }
    }

    lemma MarkIs()
      requires Inside()
      ensures PlaceOf(Here()) == if column > 0 then (line, column) else (line - 1, lastLineLen)
      ensures srcBufOffset + srcPos <= |whole| && lastCharLen <= srcPos
      ensures Here().cur == whole[srcBufOffset + srcPos - lastCharLen..]
    {
      hide Window;
    }

    /** Starts collecting token text and notes its position. */
    method Mark()
      requires Inside()
      modifies `tokBuf, `tokPos, `tokStart, `offset, `posLine, `posColumn
      ensures Inside() && Here() == old(Here()) && tokPos >= 0
      ensures Marked(Here())
    {
      hide Buffered, Width, PlaceOf;
      MarkIs();
      tokBuf := [];
      tokPos := srcPos - lastCharLen;
      offset := srcBufOffset + tokPos;
      tokStart := offset;
      assert whole[tokStart..srcBufOffset + tokPos] == [];
      if column > 0 {
        posLine, posColumn := line, column;
      } else {
        posLine, posColumn := line - 1, lastLineLen;
      }
    }

    /** The stored position is that of `c`. */
    ghost predicate Marked(c: Cursor)
      reads `tokStart, `offset, `posLine, `posColumn
    {
      && tokStart == offset <= |whole| && whole[offset..] == c.cur
      && (posLine, posColumn) == PlaceOf(c)
    }

    /** `Scan` from the first look at the token on. */
    method ScanNext(ch: int) returns (tok: int, r: int)
      requires Ahead(ch) && Sane(config) && tokPos < 0
      modifies `srcPos, `srcEnd, `srcBufOffset, `line, `column, `lastLineLen, `lastCharLen, `tokBuf, `tokPos,
               `errorCount, `tokStart, `offset, `posLine, `posColumn, src, srcBuf
      ensures Ahead(r) && tokPos >= 0 && tokStart == offset
      ensures var t := ScanAt(config, old(Here())); tok == t.tok && Here() == t.end && Marked(t.start)
    {
      hide Inside, Look, Read, Rune, Advance, SkipWhite, TokenAt, CommentEnd, CommentStarts, ScanAt, PlaceOf, IsWhite;
      r := ch;
      ghost var t := ScanAt(config, Here());
      while true
        invariant Ahead(r) && tokPos < 0
        invariant ScanAt(config, Here()) == t
        decreases |Here().cur|
      {
        ScanAtIs(config, Here());
        r := SkipWhitespace(r);
        Mark();
        ghost var c := Here();
        if r == 47 && config.comments && config.skipComments && !config.ident(r, 0) {
          SlashIs(config, c);
          r := Step();
          if r == 47 || r == 42 {
            StopCollecting();
            EndOrNot(c);
            r := ScanComment(r);
          } else {
            return 47, r;
          }
        } else {
          NoSlash(config, c);
          tok, r := ScanToken(r);
          return;
        }
      }
    }

    /** `Scan`. */
    method Scan() returns (tok: int)
      requires Valid()
      modifies `srcPos, `srcEnd, `srcBufOffset, `line, `column, `lastLineLen, `lastCharLen, `tokBuf, `tokPos, `tokEnd,
               `errorCount, `ch, `tokStart, `offset, `posLine, `posColumn, src, srcBuf
      ensures Valid() && ch != -2 && tokPos >= 0
      ensures var t := ScanAt(config, old(At())); tok == t.tok && At() == t.end && Marked(t.start)
    {
      hide Inside, Untouched, Read, Rune, Advance, First, ScanAt, Marked, Sane;
      var r := Peek();
      StopCollecting();
      posLine := 0;
      tok, r := ScanNext(r);
      tokEnd := srcPos - lastCharLen;
      ch := r;
      NeverMinusTwo(Here().cur);
    }

    /** `Pos`: offset, line and column of the look-ahead character. */
    method Pos() returns (offset: int, line: int, column: int)
      requires Valid() && ch != -2
      ensures offset == |whole| - |At().cur|
      ensures (line, column) == if At().column > 0 || At().lastLineLen > 0 then PlaceOf(At()) else (1, 1)
    {
      offset := srcBufOffset + srcPos - lastCharLen;
      if this.column > 0 {
        line, column := this.line, this.column;
      } else if lastLineLen > 0 {
        line, column := this.line - 1, lastLineLen;
      } else {
        line, column := 1, 1;
      }
    }

    /** `TokenText`: the slice of the source between the token's offset and `Pos()`, as often as it is asked. */
    method TokenText() returns (text: seq<byte>)
      requires Valid() && ch != -2
      modifies `tokBuf, `tokPos
      ensures Valid() && At() == old(At()) && (tokPos >= 0 <==> old(tokPos) >= 0)
      ensures tokPos < 0 ==> text == []
      ensures tokPos >= 0 ==> offset <= |whole| - |At().cur| && text == whole[offset..|whole| - |At().cur|]
    {
      hide Window, Width, Rune, First, Sane;
      if tokPos < 0 {
        return [];
      }
      TextSoFar();
      if tokBuf == [] {
        return srcBuf[tokPos..tokEnd];
      }
      SaveTail();
      return tokBuf;
    }

    lemma TextSoFar()
      requires Inside() && TokenReady() && tokPos >= 0
      ensures offset <= |whole| - |Look()| && 0 <= tokPos <= tokEnd <= srcEnd <= srcBuf.Length
      ensures tokBuf + srcBuf[tokPos..tokEnd] == whole[offset..|whole| - |Look()|]
    {
      InBuffer(tokPos, tokEnd);
      Seqs.Split(whole, offset, srcBufOffset + tokPos, srcBufOffset + tokEnd);
    }

    method SaveTail()
      requires Inside() && TokenReady() && tokPos >= 0
      modifies `tokBuf, `tokPos
      ensures Inside() && TokenReady() && tokPos >= 0 && Here() == old(Here())
      ensures tokBuf == whole[offset..|whole| - |Here().cur|]
    {
      TextSoFar();
      hide Window, Width;
      tokBuf := tokBuf + srcBuf[tokPos..tokEnd];
      tokPos := tokEnd;
    }
  }

  lemma NeverMinusTwo(s: seq<byte>)
    ensures Rune(s) != -2
  {
  }

  lemma ScanAtIs(f: Config, c: Cursor)
    ensures var d := SkipWhite(f, c);
            ScanAt(f, c) == if !f.ident(Rune(d.cur), 0) && CommentStarts(f, d) && f.skipComments
                            then ScanAt(f, CommentEnd(Advance(d)))
                            else Token(TokenAt(f, d).0, d, TokenAt(f, d).1)
    ensures |SkipWhite(f, c).cur| <= |c.cur|
  {
    hide TokenAt, CommentStarts, CommentEnd;
  }

  /** A slash that starts no comment is a token by itself. */
  lemma SlashIs(f: Config, c: Cursor)
    requires Rune(c.cur) == 47 && f.comments && !f.ident(47, 0)
    ensures CommentStarts(f, c) <==> Rune(Advance(c).cur) == 47 || Rune(Advance(c).cur) == 42
    ensures !CommentStarts(f, c) ==> TokenAt(f, c) == (47, Advance(c))
    ensures c.cur != [] && |CommentEnd(Advance(c)).cur| < |c.cur|
  {
  }

  lemma NoSlash(f: Config, c: Cursor)
    requires Rune(c.cur) != 47 || !f.comments || !f.skipComments || f.ident(Rune(c.cur), 0)
    ensures f.ident(Rune(c.cur), 0) || !CommentStarts(f, c) || !f.skipComments
  {
  }

  lemma NotAtEnd(c: Cursor)
    ensures Rune(c.cur) >= 0 ==> c.cur != [] && |Advance(c).cur| < |c.cur|
  {
  }

  lemma EndOrNot(c: Cursor)
    ensures Rune(c.cur) < 0 <==> c.cur == []
    ensures c.cur == [] ==> Rune(c.cur) == EOF
    ensures c.cur != [] ==> |Advance(c).cur| < |c.cur|
  {
  }

  lemma HeadOf(u: seq<byte>)
    ensures u != [] ==> Rune(u) == DecodeRune(u).0 && Width(u) == DecodeRune(u).1
    ensures u != [] && u[0] < 0x80 ==> DecodeRune(u) == (u[0] as int, 1) && !Illegal(u)
    ensures Illegal(u) <==> u != [] && DecodeRune(u) == (RUNE_ERROR, 1)
    ensures u == [] <==> Rune(u) == EOF
    ensures u == [] ==> Width(u) == 0
  {
  }

  lemma ReadIs(u: seq<byte>, lead: nat, line: int, column: int, lastLineLen: int, errors: nat)
    ensures Read(u, lead, line, column, lastLineLen, errors) ==
      if u == [] then Cursor([], line, if lead > 0 then column + 1 else column, lastLineLen, errors)
      else var e := errors + if Illegal(u) || Rune(u) == 0 then 1 else 0;
           if Rune(u) == 10 then Cursor(u, line + 1, 0, column + 1, e) else Cursor(u, line, column + 1, lastLineLen, e)
  {
  }

  /** `copy(buf[0:], buf[from:to])`. */
  method MoveDown(buf: array<byte>, from: nat, to: nat)
    requires from <= to <= buf.Length
    modifies buf
    ensures buf[..to - from] == old(buf[from..to])
  {
    for k := 0 to to - from
      invariant buf[..k] == old(buf[from..from + k])
      invariant forall j | k <= j < buf.Length :: buf[j] == old(buf[j])
    {
      buf[k] := buf[from + k];
      assert buf[..k + 1] == buf[..k] + [buf[k]];
    }
  }
}
