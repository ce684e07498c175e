/** Base 128 varints: the loops of `log.pb.go` and `varint.go` and what they compute. */
module Varint {

  import opened Bits

  /** The bytes `encodeVarintLog` and `binary.PutUvarint` produce. */
  function Encode(v: nat): (s: seq<byte>)
    ensures |s| >= 1
  {
    if v < 128 then [v as byte] else [(128 + v % 128) as byte] + Encode(v / 128)
  }

  /** `b & 0x7F`. */
  function Digit(b: byte): nat {
    (b % 128) as int
  }

  /** The value of a sequence of base-128 digits, least significant first; continuation bits are ignored. */
  function Value(s: seq<byte>): nat {
    if s == [] then 0 else Digit(s[0]) + 128 * Value(s[1..])
  }

  /** How many bytes up to and including the first one without a continuation bit; 0 if there is none. */
  function Length(s: seq<byte>): (n: nat)
    ensures n <= |s|
  {
    if s == [] then 0
    else if s[0] < 128 then 1
    else var n := Length(s[1..]); if n == 0 then 0 else n + 1
  }

  /** `s` is one whole varint, not necessarily a shortest one. */
  predicate IsVarint(s: seq<byte>) {
    |s| > 0 && Length(s) == |s|
  }

  /** `Length` is where the first byte without a continuation bit is. */
  lemma {:induction false} LengthFinds(s: seq<byte>)
    ensures var n := Length(s);
            && (n > 0 ==> s[n - 1] < 128 && forall i | 0 <= i < n - 1 :: s[i] >= 128)
            && (n == 0 ==> forall i | 0 <= i < |s| :: s[i] >= 128)
  {
    if s != [] && s[0] >= 128 {
      LengthFinds(s[1..]);
    }
  }

  lemma LengthIs(s: seq<byte>, n: nat)
    requires 0 < n <= |s| && s[n - 1] < 128 && forall i | 0 <= i < n - 1 :: s[i] >= 128
    ensures Length(s) == n
  {
    LengthFinds(s);
  }

  lemma {:induction false} LengthOfPrefix(s: seq<byte>)
    ensures Length(s[..Length(s)]) == Length(s)
    decreases |s|
  {
    var n := Length(s);
    if n > 1 {
      LengthOfPrefix(s[1..]);
      assert s[..n][1..] == s[1..][..n - 1];
    }
  }

  lemma LengthPrefix(s: seq<byte>, rest: seq<byte>)
    requires IsVarint(s)
    ensures Length(s + rest) == |s| && (s + rest)[..|s|] == s
  {
    LengthFinds(s);
    LengthIs(s + rest, |s|);
  }

  /** Every number comes back from its bytes, whatever follows them. */
  lemma {:induction false} EncodeDecodes(v: nat)
    ensures IsVarint(Encode(v)) && Value(Encode(v)) == v
  {
    if v >= 128 {
      EncodeDecodes(v / 128);
      assert Encode(v)[1..] == Encode(v / 128);
    }
  }

  /** A shortest varint is the encoding of its value. */
  lemma {:induction false} ShortestIsEncoding(s: seq<byte>)
    requires IsVarint(s) && (|s| > 1 ==> s[|s| - 1] != 0)
    ensures s == Encode(Value(s)) && (|s| > 1 ==> Value(s) >= 128)
    decreases |s|
  {
    if |s| > 1 {
      var t := s[1..];
      LengthFinds(s);
      LengthIs(t, |t|);
      ShortestIsEncoding(t);
      assert s == [s[0]] + t;
      NextDigit(s[0], Value(t));
    }
  }

  lemma NextDigit(b: byte, v: nat)
    requires b >= 128 && v >= 1
    ensures Encode(Digit(b) + 128 * v) == [b] + Encode(v)
  {
    DivModUnique(Digit(b) + 128 * v, v, Digit(b), 128);
  }

  lemma {:induction false} ValueBound(s: seq<byte>)
    ensures Value(s) < Pow2(7 * |s|)
    decreases |s|
  {
    if s != [] {
      ValueBound(s[1..]);
      Pow2Values();
      Pow2Adds(7, 7 * |s[1..]|);
    }
  }

  lemma {:induction false} ValueSnoc(s: seq<byte>, b: byte)
    ensures Value(s + [b]) == Value(s) + Digit(b) * Pow2(7 * |s|)
    decreases |s|
  {
    if s != [] {
      ValueSnoc(s[1..], b);
      assert (s + [b])[1..] == s[1..] + [b];
      Pow2Values();
      Pow2Adds(7, 7 * |s[1..]|);
      MulRearrange(Digit(b), Pow2(7 * |s[1..]|));
    } else {
      assert [b][1..] == [];
      assert Value([b]) == Digit(b);
    }
  }

  lemma MulRearrange(c: nat, p: nat)
    ensures 128 * (c * p) == c * (128 * p)
  {
  }

  // ---------------------------------------------------------------------------------------------
  // sovLog and encodeVarintLog
  // ---------------------------------------------------------------------------------------------

  lemma ModPow2(v: nat, width: nat)
    ensures 0 <= v % Pow2(width) < Pow2(width)
  {
  }

  /** Re-encoding the 64-bit value of a varint never takes more bytes than the varint did. */
  lemma ShortestIsShorter(s: seq<byte>)
    requires s != []
    ensures 1 <= |Encode(Low(s, 64))| <= |s|
  {
    ValueBound(s);
    ModPow2(Value(s), 64);
    ModNoGreater(Value(s), Pow2(64));
    SizeBound(Low(s, 64), |s|);
  }

  lemma ModNoGreater(v: nat, m: nat)
    requires m > 0
    ensures v % m <= v
  {
    if v < m { ModSmall(v, m); }
  }

  /** `sovLog`: the number of bytes the encoder will write. */
  method SizeOf(x: nat) returns (n: nat)
    ensures n == |Encode(x)|
  {
    n := 1;
    var v: nat := x / 128;
    while v != 0
      invariant |Encode(x)| == n + if v == 0 then 0 else |Encode(v)|
      decreases v
    {
      n := n + 1;
      v := v / 128;
    }
  }

  /** A 64-bit value takes at most ten bytes. */
  lemma {:induction false} SizeBound(v: nat, k: nat)
    requires k >= 1 && v < Pow2(7 * k)
    ensures |Encode(v)| <= k
    decreases k
  {
    Pow2Values();
    if v >= 128 {
      Pow2Adds(7, 7 * (k - 1));
      SizeBound(v / 128, k - 1);
    }
  }

  /** Writing one more byte after `done`. */
  lemma PutStep(before: seq<byte>, offset: nat, done: seq<byte>, b: byte)
    requires offset + |done| < |before|
    ensures (before[..offset] + done + before[offset + |done|..])[offset + |done| := b]
         == before[..offset] + (done + [b]) + before[offset + |done| + 1..]
  {
  }

  lemma DigitStep(v: nat, done: seq<byte>, w: nat)
    requires done + Encode(w) == Encode(v)
    ensures w >= 128 ==> (done + [(128 + w % 128) as byte]) + Encode(w / 128) == Encode(v)
    ensures w < 128 ==> done + [w as byte] == Encode(v)
    ensures |done| < |Encode(v)|
  {
  }

  /** `encodeVarintLog(data, offset, v)`: exactly the bytes of `Encode(v)` are written at `offset`. */
  method Put(data: array<byte>, offset: nat, v: nat) returns (next: nat)
    requires offset + |Encode(v)| <= data.Length
    modifies data
    ensures next == offset + |Encode(v)|
    ensures data[..] == old(data[..offset]) + Encode(v) + old(data[next..])
  {
    hide Encode;
    next := offset;
    var w: nat := v;
    ghost var before := data[..];
    ghost var done: seq<byte> := [];
    while w >= 128
      invariant next == offset + |done| && done + Encode(w) == Encode(v)
      invariant data[..] == before[..offset] + done + before[offset + |done|..]
      decreases w
    {
      DigitStep(v, done, w);
      var b := (128 + w % 128) as byte;
      SetByte(data, next, b, before, offset, done);
      next := next + 1;
      done := done + [b];
      w := w / 128;
    }
    DigitStep(v, done, w);
    SetByte(data, next, w as byte, before, offset, done);
    next := next + 1;
  }

  /** `data[next] = b` after `done` was written at `offset`. */
  method SetByte(
    data: array<byte>, next: nat, b: byte, ghost before: seq<byte>, ghost offset: nat, ghost done: seq<byte>)
    requires |before| == data.Length && next == offset + |done| < data.Length
    requires data[..] == before[..offset] + done + before[next..]
    modifies data
    ensures data[..] == before[..offset] + (done + [b]) + before[next + 1..]
  {
    data[next] := b;
    PutStep(before, offset, done, b);
    assert data[..] == old(data[..])[next := b];
  }

  // ---------------------------------------------------------------------------------------------
  // The decoding loop of the generated code
  // ---------------------------------------------------------------------------------------------

  /** `(b & 0x7F) << shift` in a variable of `width` bits. */
  function Shifted(b: byte, shift: nat, width: nat): nat {
    (Digit(b) * Pow2(shift)) % Pow2(width)
  }

  /** The low `width` bits of a varint's value. */
  function Low(s: seq<byte>, width: nat): nat {
    Value(s) % Pow2(width)
  }

  lemma GetStart(width: nat, acc0: nat)
    ensures Or(acc0, Low([], width)) == acc0 && Low([], width) == 0
  {
    ModSmall(0, Pow2(width));
  }

  lemma GetStep(p: seq<byte>, b: byte, width: nat, acc0: nat)
    ensures Or(Or(acc0, Low(p, width)), Shifted(b, 7 * |p|, width)) == Or(acc0, Low(p + [b], width))
  {
    ValueBound(p);
    ValueSnoc(p, b);
    ShiftOr(Value(p), Digit(b), 7 * |p|, width);
    OrAssociates(acc0, Low(p, width), Shifted(b, 7 * |p|, width));
  }

  lemma GetDone(data: seq<byte>, index: nat, next: nat)
    requires index < next <= |data| && data[next - 1] < 128
    requires forall i | index <= i < next - 1 :: data[i] >= 128
    ensures Length(data[index..]) == next - index
  {
    LengthIs(data[index..], next - index);
  }

  lemma GetFails(data: seq<byte>, index: nat)
    requires index <= |data| && forall i | index <= i < |data| :: data[i] >= 128
    ensures Length(data[index..]) == 0
  {
    LengthFinds(data[index..]);
  }

  /** The loop `for shift := uint(0); ; shift += 7 { ... acc |= (b & 0x7F) << shift ... }` on a variable of
      `width` bits that holds `acc0` before: it consumes one varint, however long, and ors its value into
      the variable, truncated to the width.  It fails exactly when the input ends first. */
  method Get(data: seq<byte>, index: nat, width: nat, acc0: nat) returns (ok: bool, next: nat, acc: nat)
    requires index <= |data|
    ensures ok <==> Length(data[index..]) > 0
    ensures ok ==> next == index + Length(data[index..])
    ensures ok ==> acc == Or(acc0, Low(data[index..next], width))
  {
    GetStart(width, acc0);
    hide Low, Shifted, Or, Length;
    acc, next := acc0, index;
    var shift := 0;
    ghost var p: seq<byte> := [];
    while true
      invariant index <= next <= |data| && p == data[index..next] && shift == 7 * |p|
      invariant forall i | index <= i < next :: data[i] >= 128
      invariant acc == Or(acc0, Low(p, width))
      decreases |data| - next
    {
      if next >= |data| {
        GetFails(data, index);
        return false, next, acc;
      }
      var b := data[next];
      ghost var old_p := p;
      next := next + 1;
      acc := Or(acc, Shifted(b, shift, width));
      GetStep(p, b, width, acc0);
      p := data[index..next];
      assert p == old_p + [b];
      if b < 128 {
        GetDone(data, index, next);
        return true, next, acc;
      }
      shift := shift + 7;
    }
  }

  // ---------------------------------------------------------------------------------------------
  // ReadUvarint and WriteUvarint
  // ---------------------------------------------------------------------------------------------

  datatype Uvarint = Read(x: nat, consumed: nat) | Overflow(consumed: nat) | Eof

  /** The reading of one varint that `varint.go` and `encoding/binary` promise. */
  function ReadSpec(s: seq<byte>): Uvarint {
    var n := Length(s);
    if n == 0 then Eof
    else if n > 10 || (n == 10 && s[9] > 1) then Overflow(n)
    else Read(Value(s[..n]), n)
  }

  /** `ReadUvarint` on a reader whose remaining bytes are `s`; the reader is left after `consumed` bytes. */
  method ReadUvarint(s: seq<byte>) returns (r: Uvarint)
    ensures r == ReadSpec(s)
    ensures r.Read? ==> r.x < TWO_64 && r.consumed <= 10
  {
    GetStart(64, 0);
    hide Low, Shifted, Or;
    var x, shift, i := 0, 0, 0;
    ghost var p: seq<byte> := [];
    while true
      invariant 0 <= i <= |s| && p == s[..i] && shift == 7 * i
      invariant forall j | 0 <= j < i :: p[j] >= 128
      invariant x == Low(p, 64)
      decreases |s| - i
    {
      if i >= |s| {
        LengthFinds(s);
        assert p == s;
        return Eof;
      }
      var b := s[i];
      GetStep(p, b, 64, 0);
      OrZero(Low(p, 64), Low(p + [b], 64));
      if b < 128 {
        LengthIs(s, i + 1);
        if i > 9 || (i == 9 && b > 1) {
          return Overflow(i + 1);
        }
        TenDigits(p, b);
        assert s[..i + 1] == p + [b];
        return Read(Or(x, Shifted(b, shift, 64)), i + 1);
      }
      x := Or(x, Shifted(b, shift, 64));
      shift := shift + 7;
      i := i + 1;
      p := p + [b];
    }
  }

  lemma OrZero(x: nat, y: nat)
    ensures Or(0, x) == x && Or(0, y) == y
  {
  }

  /** Without overflow no bit is cut off. */
  lemma TenDigits(p: seq<byte>, b: byte)
    requires b < 128 && (|p| < 9 || (|p| == 9 && b <= 1))
    ensures Value(p + [b]) < TWO_64 && Low(p + [b], 64) == Value(p + [b])
  {
    ValueSnoc(p, b);
    ValueBound(p);
    hide Pow2, Value;
    Pow2Values();
    TenDigitsBound(Value(p), Digit(b), 7 * |p|);
    ModSmall(Value(p + [b]), Pow2(64));
  }

  lemma TenDigitsBound(v: nat, b: nat, shift: nat)
    requires b < 128 && v < Pow2(shift) && (shift <= 56 || (shift == 63 && b <= 1))
    ensures v + b * Pow2(shift) < TWO_64
  {
    Pow2Values();
    if shift == 63 {
      Pow2Adds(63, 1);
      MulMonotone(b, 1, Pow2(63));
    } else {
      MulMonotone(b, 127, Pow2(shift));
      Pow2Adds(7, shift);
      Pow2Monotone(7 + shift, 64);
    }
  }

  lemma TenBytes(v: nat)
    requires v < TWO_64
    ensures |Encode(v)| <= 10 && (|Encode(v)| == 10 ==> Encode(v)[9] <= 1)
  {
    EncodeDecodes(v);
    Pow2Values();
    Pow2Monotone(64, 70);
    SizeBound(v, 10);
    LengthFinds(Encode(v));
    if |Encode(v)| == 10 {
      TenthByte(Encode(v));
    }
  }

  lemma TenthByte(s: seq<byte>)
    requires |s| == 10 && Value(s) < TWO_64 && s[9] < 128
    ensures s[9] <= 1
  {
    assert s == s[..9] + [s[9]];
    ValueSnoc(s[..9], s[9]);
    hide Value;
    Pow2Values();
    Pow2Adds(63, 1);
    if s[9] > 1 {
      MulMonotone(2, Digit(s[9]), Pow2(63));
    }
  }

  /** `ReadUvarint` inverts `WriteUvarint` for every uint64, and leaves what follows untouched. */
  lemma UvarintRoundTrip(v: nat, rest: seq<byte>)
    requires v < TWO_64
    ensures ReadSpec(Encode(v) + rest) == Read(v, |Encode(v)|)
  {
    EncodeDecodes(v);
    LengthPrefix(Encode(v), rest);
    TenBytes(v);
  }
}
