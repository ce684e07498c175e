/** UTF-8 as Go's `unicode/utf8` reads and writes it. */
module Utf8 {

  import opened Bits

  const RUNE_ERROR := 0xFFFD

  /** How many bytes the first byte announces; 1 for ASCII and for bytes that start no character. */
  function Announced(b: byte): nat {
    if 0xC2 <= b <= 0xDF then 2
    else if 0xE0 <= b <= 0xEF then 3
    else if 0xF0 <= b <= 0xF4 then 4
    else 1
  }

  predicate Continues(b: byte) {
    0x80 <= b <= 0xBF
  }

  /** The second byte is restricted further, against overlong forms, surrogates and too large values. */
  predicate Second(b0: byte, b1: byte) {
    if b0 == 0xE0 then 0xA0 <= b1 <= 0xBF
    else if b0 == 0xED then 0x80 <= b1 <= 0x9F
    else if b0 == 0xF0 then 0x90 <= b1 <= 0xBF
    else if b0 == 0xF4 then 0x80 <= b1 <= 0x8F
    else Continues(b1)
  }

  function Low6(b: byte): int {
    b as int - 0x80
  }

  /** `utf8.DecodeRune` of a nonempty slice: the character and its width, `(RUNE_ERROR, 1)` for an illegal
      or incomplete encoding. */
  function DecodeRune(s: seq<byte>): (r: (int, nat))
    requires s != []
    ensures 1 <= r.1 <= |s| && r.1 <= 4 && r.0 >= 0
  {
    var n := Announced(s[0]);
    if s[0] < 0x80 then (s[0] as int, 1)
    else if n == 1 || |s| < n || !Second(s[0], s[1]) then (RUNE_ERROR, 1)
    else if n == 2 then ((s[0] as int - 0xC0) * 64 + Low6(s[1]), 2)
    else if !Continues(s[2]) then (RUNE_ERROR, 1)
    else if n == 3 then ((s[0] as int - 0xE0) * 4096 + Low6(s[1]) * 64 + Low6(s[2]), 3)
    else if !Continues(s[3]) then (RUNE_ERROR, 1)
    else ((s[0] as int - 0xF0) * 262144 + Low6(s[1]) * 4096 + Low6(s[2]) * 64 + Low6(s[3]), 4)
  }

  /** `utf8.FullRune`: more bytes would not change what `s` decodes to. */
  predicate FullRune(s: seq<byte>) {
    && s != []
    && (|s| >= Announced(s[0])
        || (|s| > 1 && !Second(s[0], s[1]))
        || (|s| > 2 && !Continues(s[2])))
  }

  /** A full prefix decides. */
  lemma FullDecides(s: seq<byte>, k: nat)
    requires 0 < k <= |s| && (FullRune(s[..k]) || k == |s|)
    ensures DecodeRune(s[..k]) == DecodeRune(s)
  {
    if k == |s| { assert s[..k] == s; }
  }

  lemma FourAreFull(s: seq<byte>)
    requires |s| >= 4
    ensures FullRune(s)
  {
  }

  /** `string(r)` of a rune; values that are no characters become `RUNE_ERROR`. */
  function EncodeRune(r: int): (s: seq<byte>)
    ensures 1 <= |s| <= 4
  {
    if 0 <= r < 0x80 then [r as byte]
    else if 0x80 <= r < 0x800 then [(0xC0 + r / 64) as byte, (0x80 + r % 64) as byte]
    else if 0x800 <= r < 0xD800 || 0xE000 <= r < 0x10000 then
      [(0xE0 + r / 4096) as byte, (0x80 + r / 64 % 64) as byte, (0x80 + r % 64) as byte]
    else if 0x10000 <= r < 0x110000 then
      [(0xF0 + r / 262144) as byte, (0x80 + r / 4096 % 64) as byte, (0x80 + r / 64 % 64) as byte,
       (0x80 + r % 64) as byte]
    else [0xEF, 0xBF, 0xBD]
  }

  predicate Illegal(s: seq<byte>) {
    s != [] && DecodeRune(s) == (RUNE_ERROR, 1)
  }

  lemma Digits64(a: int, b: int, c: int, d: int)
    requires 0 <= a && 0 <= b < 64 && 0 <= c < 64 && 0 <= d < 64
    ensures (a * 64 + b) / 64 == a && (a * 64 + b) % 64 == b
    ensures var r := a * 4096 + b * 64 + c; r / 4096 == a && r / 64 % 64 == b && r % 64 == c
    ensures var r := a * 262144 + b * 4096 + c * 64 + d;
            r / 262144 == a && r / 4096 % 64 == b && r / 64 % 64 == c && r % 64 == d
  {
  }

  /** A character that is read is written back as the same bytes exactly if its encoding was legal. */
  lemma EncodeDecoded(s: seq<byte>)
    requires s != []
    ensures EncodeRune(DecodeRune(s).0) == s[..DecodeRune(s).1] <==> !Illegal(s)
  {
    if !Illegal(s) {
      if DecodeRune(s).1 == 2 { Digits64(s[0] as int - 0xC0, Low6(s[1]), 0, 0); }
      if DecodeRune(s).1 == 3 { Digits64(s[0] as int - 0xE0, Low6(s[1]), Low6(s[2]), 0); }
      if DecodeRune(s).1 == 4 { Digits64(s[0] as int - 0xF0, Low6(s[1]), Low6(s[2]), Low6(s[3])); }
    }
  }

  /** Every character of `s` is legally encoded. */
  predicate ValidUtf8(s: seq<byte>)
    decreases |s|
  {
    s == [] || (!Illegal(s) && ValidUtf8(s[DecodeRune(s).1..]))
  }

  /** What follows a legal or cut-off character does not matter. */
  lemma DecodeAppend(s: seq<byte>, t: seq<byte>)
    requires s != [] && !Illegal(s)
    ensures DecodeRune(s + t) == DecodeRune(s)
  {
  }

  /** Text read character by character and written again, as a loop over `Next` and `WriteString` does. */
  function Rewritten(s: seq<byte>): seq<byte>
    decreases |s|
  {
    if s == [] then [] else EncodeRune(DecodeRune(s).0) + Rewritten(s[DecodeRune(s).1..])
  }

  /** It stays the same exactly if it is legal: an illegal byte becomes the three bytes of `RUNE_ERROR`. */
  lemma {:induction false} RewrittenIs(s: seq<byte>)
    ensures |Rewritten(s)| >= |s| && (Rewritten(s) == s <==> ValidUtf8(s))
    ensures ValidUtf8(s) || |Rewritten(s)| > |s|
    decreases |s|
  {
    if s != [] {
      var w := DecodeRune(s).1;
      RewrittenIs(s[w..]);
      FirstRewritten(s);
      hide DecodeRune, EncodeRune;
      Cancels(s, w, Rewritten(s[w..]));
    }
  }

  lemma Cancels(s: seq<byte>, w: nat, t: seq<byte>)
    requires w <= |s|
    ensures s[..w] + t == s <==> t == s[w..]
  {
    assert s == s[..w] + s[w..];
    if s[..w] + t == s { assert (s[..w] + t)[w..] == t; }
  }

  lemma FirstRewritten(s: seq<byte>)
    requires s != []
    ensures !Illegal(s) ==> EncodeRune(DecodeRune(s).0) == s[..DecodeRune(s).1]
    ensures Illegal(s) ==> |EncodeRune(DecodeRune(s).0)| == 3 && DecodeRune(s).1 == 1
  {
    EncodeDecoded(s);
  }
}
