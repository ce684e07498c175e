/** Decimal notation: `strconv.FormatInt` and `ParseInt`, and the fraction digits of an interval. */
module Decimals {

  import opened Wrappers
  import opened Bits

  const ZERO: byte := 48

  predicate IsDigit(b: byte) {
    48 <= b <= 57
  }

  predicate AllDigits(s: seq<byte>) {
    forall i | 0 <= i < |s| :: IsDigit(s[i])
  }

  function Digit(n: nat): byte
    requires n < 10
  {
    (48 + n) as byte
  }

  /** The shortest decimal notation. */
  function Decimal(n: nat): (s: seq<byte>)
    ensures |s| >= 1
  {
    if n < 10 then [Digit(n)] else Decimal(n / 10) + [Digit(n % 10)]
  }

  function DigitValue(b: byte): int {
    b as int - 48
  }

  /** The value of a string of digits, most significant first. */
  function Number(s: seq<byte>): int {
    if s == [] then 0 else Number(s[..|s| - 1]) * 10 + DigitValue(s[|s| - 1])
  }

  lemma {:induction false} DecimalReads(n: nat)
    ensures AllDigits(Decimal(n)) && Number(Decimal(n)) == n
    ensures Decimal(n)[0] == ZERO <==> n == 0
    decreases n
  {
    if n >= 10 {
      DecimalReads(n / 10);
      assert Decimal(n)[..|Decimal(n)| - 1] == Decimal(n / 10);
    }
  }

  /** The loop of `strconv.FormatInt`. */
  method FormatDecimal(n: nat) returns (s: seq<byte>)
    ensures s == Decimal(n)
  {
    var m := n;
    s := [];
    while m >= 10
      invariant Decimal(n) == Decimal(m) + s
    {
      s := [Digit(m % 10)] + s;
      m := m / 10;
    }
    s := [Digit(m)] + s;
  }

  // ---------------------------------------------------------------------------------------------
  // The fraction of an interval
  // ---------------------------------------------------------------------------------------------

  function Pow10(n: nat): (p: nat)
    ensures p >= 1
  {
    if n == 0 then 1 else 10 * Pow10(n - 1)
  }

  function Zeros(n: nat): (s: seq<byte>)
    ensures |s| == n
  {
    if n == 0 then [] else [ZERO] + Zeros(n - 1)
  }

  /** At least nine digits. */
  function Padded(n: nat): seq<byte> {
    var s := Decimal(n);
    if |s| < 9 then Zeros(9 - |s|) + s else s
  }

  /** Without trailing zeros. */
  function Stripped(s: seq<byte>): (r: seq<byte>)
    ensures |r| <= |s|
  {
    if s != [] && s[|s| - 1] == ZERO then Stripped(s[..|s| - 1]) else s
  }

  /** `subsecond`; `None` is the panic on an empty string. */
  function Subsecond(n: nat): Option<seq<byte>> {
    if Stripped(Padded(n)) == [] then None else Some(Stripped(Padded(n)))
  }

  /** The first loop of `subsecond`. */
  method Pad(s: seq<byte>) returns (str: seq<byte>)
    ensures str == if |s| < 9 then Zeros(9 - |s|) + s else s
  {
    str := s;
    while |str| < 9
      invariant |str| <= 9 || str == s
      invariant |s| <= |str| && str == Zeros(|str| - |s|) + s
    {
      str := [ZERO] + str;
    }
  }

  /** `subsecond`. */
  method FormatSubsecond(n: nat) returns (r: Option<seq<byte>>)
    ensures r == Subsecond(n)
  {
    hide Decimal;
    var str := FormatDecimal(n);
    str := Pad(str);
    assert str == Padded(n);
    hide Padded;
    while true
      invariant Stripped(str) == Stripped(Padded(n))
      decreases |str|
    {
      if str == [] {
        return None;
      }
      if str[|str| - 1] == ZERO {
        str := str[..|str| - 1];
      } else {
        break;
      }
    }
    return Some(str);
  }

  lemma {:induction false} NumberBound(s: seq<byte>)
    requires AllDigits(s)
    ensures 0 <= Number(s) < Pow10(|s|)
    decreases |s|
  {
    if s != [] {
      NumberBound(s[..|s| - 1]);
    }
  }

  lemma {:induction false} NumberOfZeros(n: nat, s: seq<byte>)
    requires AllDigits(s)
    ensures Number(Zeros(n) + s) == Number(s) && AllDigits(Zeros(n) + s)
    decreases |s|, n
  {
    if s == [] {
      assert Zeros(n) + s == Zeros(n);
      if n > 0 {
        ZerosSnoc(n - 1);
        NumberOfZeros(n - 1, []);
        assert Zeros(n - 1) + [] == Zeros(n - 1);
        assert Zeros(n)[..n - 1] == Zeros(n - 1);
      }
    } else {
      NumberOfZeros(n, s[..|s| - 1]);
      assert (Zeros(n) + s)[..n + |s| - 1] == Zeros(n) + s[..|s| - 1];
      assert Zeros(n) + s == Zeros(n) + s[..|s| - 1] + [s[|s| - 1]];
    }
  }

  lemma {:induction false} ZerosSnoc(n: nat)
    ensures Zeros(n + 1) == Zeros(n) + [ZERO]
    decreases n
  {
    if n > 0 {
      ZerosSnoc(n - 1);
    }
  }

  /** Cutting off a zero divides by ten. */
  lemma {:induction false} StrippedNumber(s: seq<byte>)
    requires AllDigits(s)
    ensures AllDigits(Stripped(s)) && Number(s) == Number(Stripped(s)) * Pow10(|s| - |Stripped(s)|)
    ensures Stripped(s) == [] <==> Number(s) == 0
    decreases |s|
  {
    if s != [] {
      var t := s[..|s| - 1];
      NumberBound(t);
      if s[|s| - 1] == ZERO {
        StrippedNumber(t);
        MulTen(Number(Stripped(t)), Pow10(|t| - |Stripped(t)|));
      }
    }
  }

  lemma MulTen(a: int, p: int)
    ensures a * p * 10 == a * (10 * p)
  {
  }

  /** A number below 10^9 has at most nine digits. */
  lemma {:induction false} DecimalLength(n: nat, k: nat)
    requires k >= 1
    ensures |Decimal(n)| <= k <==> n < Pow10(k)
    decreases n
  {
    if n >= 10 && k > 1 {
      DecimalLength(n / 10, k - 1);
    } else if n >= 10 {
      assert Pow10(1) == 10 * Pow10(0);
    } else {
      Pow10Monotone(1, k);
      assert Pow10(1) == 10 * Pow10(0);
    }
  }

  lemma {:induction false} Pow10Monotone(a: nat, b: nat)
    requires a <= b
    ensures Pow10(a) <= Pow10(b)
    decreases b
  {
    if a < b {
      Pow10Monotone(a, b - 1);
    }
  }

  /** `ParseInt(s, 10, bits)` with its error ignored: too large values are clamped, anything else is 0. */
  function LaxInt(s: seq<byte>, max: nat): nat {
    if s == [] || !AllDigits(s) then 0
    else if Number(s) > max then max
    else if Number(s) < 0 then 0 else Number(s)
  }

  /** The parser's reading of the fraction digits; `None` is the panic on an empty string. */
  function Nanoseconds(s: seq<byte>): Option<nat> {
    if s == [] then None
    else Some((if |s| <= 9 then LaxInt(s, TWO_31 - 1) * Pow10(9 - |s|) else LaxInt(s, TWO_31 - 1)) % TWO_32)
  }

  lemma Pow10Values()
    ensures Pow10(9) == 1_000_000_000 && Pow10(10) == 10_000_000_000
  {
    assert Pow10(5) == 100_000;
  }

  /** What `Subsecond` and `Nanoseconds` make of the digits `p` of `n`. */
  lemma ReadsStripped(n: nat, p: seq<byte>, r: seq<byte>)
    requires Padded(n) == p && Stripped(p) == r
    ensures Subsecond(n) == (if r == [] then None else Some(r))
    ensures r != [] && AllDigits(r) && Number(r) >= 0 ==>
      Nanoseconds(r) == Some((if |r| <= 9 then Clamped(Number(r)) * Pow10(9 - |r|) else Clamped(Number(r))) % TWO_32)
  {
    hide Number, AllDigits, Padded, Stripped, Pow10;
  }

  function Clamped(v: int): (w: nat)
    requires v >= 0
    ensures w <= v
  {
    if v > TWO_31 - 1 then TWO_31 - 1 else v
  }

  lemma SmallReads(n: nat, r: seq<byte>)
    requires n < 1_000_000_000 && Stripped(Padded(n)) == r
    ensures r == [] <==> n == 0
    ensures AllDigits(r) && |r| <= 9
    ensures n > 0 ==> Subsecond(n) == Some(r) && Nanoseconds(r) == Some(n)
  {
    var p := Padded(n);
    Pow10Values();
    PaddedReads(n);
    StrippedNumber(p);
    NumberBound(r);
    DecimalLength(n, 9);
    Pow10Monotone(|r|, 9);
    ReadsStripped(n, p, r);
    hide Number, Decimal, AllDigits, Padded, Stripped, Pow10, Subsecond, Nanoseconds;
    ModSmall(n, TWO_32);
  }

  lemma LargeReads(n: nat, r: seq<byte>)
    requires 1_000_000_000 <= n < TWO_32 && Stripped(Padded(n)) == r
    ensures AllDigits(r) && r != [] && Subsecond(n) == Some(r)
    ensures Nanoseconds(r) == Some(n) <==> n < TWO_31 && n % 10 != 0
  {
    var p := Padded(n);
    Pow10Values();
    PaddedReads(n);
    StrippedNumber(p);
    NumberBound(r);
    DecimalLength(n, 9);
    DecimalLength(n, 10);
    LargeSubsecond(n, p);
    ReadsStripped(n, p, r);
    Pow10Zero();
    hide Number, Decimal, AllDigits, Padded, Stripped, Pow10, Subsecond, Nanoseconds;
    if n % 10 == 0 {
      ScaledDown(Number(r), |r|, n);
      ModSmall(Clamped(Number(r)) * Pow10(9 - |r|), TWO_32);
    } else {
      ModSmall(Clamped(n), TWO_32);
    }
  }

  /** Nanoseconds come back from their digits exactly if they are a proper nonzero fraction of a second, or,
      beyond a second, fit 31 bits and do not end in zero. */
  lemma SubsecondRoundTrip(n: nat)
    requires n < TWO_32
    ensures Subsecond(n).Some? && Nanoseconds(Subsecond(n).value) == Some(n)
      <==> 1 <= n < 1_000_000_000 || (1_000_000_000 <= n < TWO_31 && n % 10 != 0)
    ensures Subsecond(n).Some? ==> Subsecond(n).value != [] && AllDigits(Subsecond(n).value)
    ensures n < 1_000_000_000 && Subsecond(n).Some? ==> |Subsecond(n).value| <= 9
  {
    var r := Stripped(Padded(n));
    if n < 1_000_000_000 {
      SmallReads(n, r);
    } else {
      LargeReads(n, r);
    }
    ReadsStripped(n, Padded(n), r);
    hide Number, AllDigits, Padded, Stripped, Pow10, Subsecond, Nanoseconds;
  }

  lemma Pow10Zero()
    ensures Pow10(0) == 1
  {
  }

  lemma PaddedReads(n: nat)
    ensures AllDigits(Padded(n)) && Number(Padded(n)) == n
    ensures |Padded(n)| == if |Decimal(n)| < 9 then 9 else |Decimal(n)|
  {
    DecimalReads(n);
    if |Decimal(n)| < 9 {
      NumberOfZeros(9 - |Decimal(n)|, Decimal(n));
    }
  }

  lemma LargeSubsecond(n: nat, p: seq<byte>)
    requires |p| == 10 && AllDigits(p) && Number(p) == n
    ensures n % 10 == 0 ==> |Stripped(p)| <= 9
    ensures n % 10 != 0 ==> Stripped(p) == p
  {
    NumberBound(p[..9]);
    DivModUnique(n, Number(p[..9]), DigitValue(p[9]), 10);
  }

  /** Ten digits that end in zero are read as a number below a second. */
  lemma ScaledDown(v: int, len: nat, n: nat)
    requires len <= 9 && 0 <= v < Pow10(len) && n >= 1_000_000_000
    requires n == v * Pow10(10 - len)
    ensures 0 <= Clamped(v) * Pow10(9 - len) < n
  {
    assert Pow10(10 - len) == 10 * Pow10(9 - len);
    MulMonotone(Clamped(v), v, Pow10(9 - len));
    MulMonotone(0, Clamped(v), Pow10(9 - len));
    MulTen(v, Pow10(9 - len));
  }
}
