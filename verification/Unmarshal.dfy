/** `skipLog` and the `Unmarshal` methods as the generated code runs them: one position that moves through the
    input, one case per field.  Each computes what the schema of its type says.  A slice of Go has less than 2^63
    elements.  Where the program panics or goes on forever, the method returns `Crash` or `Stuck`. */
module Unmarshal {

  import opened Wrappers
  import opened Bits
  import opened Wire
  import opened Messages
  import Seqs
  import Varint

  // ---------------------------------------------------------------------------------------------
  // Reading at a position
  // ---------------------------------------------------------------------------------------------

  lemma HeadIs(data: seq<byte>, index: nat, width: nat)
    requires index <= |data| && Varint.Length(data[index..]) > 0
    ensures var n := Varint.Length(data[index..]);
            && index + n <= |data| && data[index..][n..] == data[index + n..]
            && Varint.Low(data[index..index + n], 64) == Head(data[index..])
            && (width <= 64 ==> Varint.Low(data[index..index + n], width) == Head(data[index..]) % Pow2(width))
  {
    hide *;
    var n := Varint.Length(data[index..]);
    Seqs.Split(data, index, index + n, |data|);
    HeadLow(data[index..]);
    if width <= 64 {
      LowOfHead(data[index..index + n], width);
    }
  }

  lemma HeadLow(s: seq<byte>)
    ensures Head(s) == Varint.Low(s[..Varint.Length(s)], 64)
  {
  }

  lemma LowOfHead(s: seq<byte>, width: nat)
    requires width <= 64
    ensures Varint.Low(s, width) == Varint.Low(s, 64) % Pow2(width)
  {
    LowOfLow(Varint.Value(s), width);
  }

  /** Truncating to 64 bits first changes nothing. */
  lemma LowOfLow(v: nat, width: nat)
    requires width <= 64
    ensures v % Pow2(width) == (v % Pow2(64)) % Pow2(width)
  {
    Pow2Adds(64 - width, width);
    hide Pow2;
    ModOfMod(v, Pow2(64 - width), Pow2(width), Pow2(64));
  }

  lemma ModOfMod(v: nat, k: nat, m: nat, n: nat)
    requires k > 0 && m > 0 && n == k * m
    ensures (v % n) % m == v % m
  {
    var q, r := v / n, v % n;
    MulNonNegative(q, k);
    assert v == r + (q * k) * m by { MulAssoc(q, k, m); }
    ModAddMultiple(r, q * k, m);
  }

  lemma MulNonNegative(a: nat, b: nat)
    ensures a * b >= 0
  {
  }

  /** The varint loop on a fresh or existing variable of `width` bits. */
  method GetNumber(data: seq<byte>, index: nat, width: nat, acc0: nat) returns (ok: bool, next: nat, acc: nat)
    requires index <= |data| && width <= 64
    ensures ok <==> Varint.Length(data[index..]) > 0
    ensures ok ==> next == index + Varint.Length(data[index..]) <= |data|
    ensures ok ==> data[index..][Varint.Length(data[index..])..] == data[next..]
    ensures ok ==> acc == Or(acc0, Head(data[index..]) % Pow2(width))
  {
    hide *;
    ok, next, acc := Varint.Get(data, index, width, acc0);
    if ok {
      HeadIs(data, index, width);
    }
  }

  /** The tag at the head of each round: the whole wire value, the field number and the wire type. */
  method GetTag(data: seq<byte>, index: nat) returns (ok: bool, next: nat, wire: nat)
    requires index <= |data|
    ensures ok <==> Varint.Length(data[index..]) > 0
    ensures ok ==> next == index + Varint.Length(data[index..]) <= |data|
    ensures ok ==> data[index..][Varint.Length(data[index..])..] == data[next..]
    ensures ok ==> wire == Head(data[index..])
  {
    hide Head, Varint.Length, Or;
    ok, next, wire := GetNumber(data, index, 64, 0);
    if ok {
      Pow2Values();
      ModSmall(Head(data[index..]), Pow2(64));
      Varint.OrZero(Head(data[index..]), 0);
    }
  }

  /** A length and that many bytes.  `index + int(length)` may be negative, and then it is not above the end. */
  method GetBlob(data: seq<byte>, index: nat) returns (r: Result<(seq<byte>, nat)>)
    requires index <= |data| < TWO_63
    ensures var p := ReadPayload(BLOB, data[index..], |data|);
            match r
            case Fail(e) => p == Fail(e)
            case Ok((b, next)) =>
              p.Ok? && p.value == (Bytes(b), next - index) && index <= next <= |data| && |b| < TWO_63
  {
    hide Head, Varint.Length;
    var ok, next, len := GetTag(data, index);
    if !ok {
      return Fail(Truncated);
    }
    BlobOutcome(data, index, next, len);
    var postIndex := AsInt(next + len);
    if postIndex > |data| {
      return Fail(Truncated);
    }
    if postIndex < next {
      return Fail(Crash);
    }
    Seqs.Split(data, index, next, |data|);
    Seqs.Split(data, index, next + len, |data|);
    assert data[index..][next - index..next - index + len] == data[next..next + len];
    return Ok((data[next..postIndex], postIndex));
  }

  /** The wrapped sum is above the end, or below the position, exactly when the sum is. */
  lemma BlobOutcome(data: seq<byte>, index: nat, next: nat, len: nat)
    requires index <= next <= |data| < TWO_63 && len < TWO_64
    ensures AsInt(next + len) > |data| <==> next + len < TWO_63 && next + len > |data|
    ensures AsInt(next + len) < next <==> next + len >= TWO_63
    ensures next + len < TWO_63 ==> AsInt(next + len) == next + len
  {
  }

  lemma EightBytes(s: seq<byte>)
    requires |s| == 8
    ensures LittleEndian(s) == s[0] as nat + 0x100 * s[1] as nat + 0x1_0000 * s[2] as nat + 0x100_0000 * s[3] as nat
      + 0x1_0000_0000 * s[4] as nat + 0x100_0000_0000 * s[5] as nat + 0x1_0000_0000_0000 * s[6] as nat
      + 0x100_0000_0000_0000 * s[7] as nat
  {
    assert LittleEndian(s[8..]) == 0;
    assert LittleEndian(s[7..]) == s[7] as nat by { assert s[7..][1..] == s[8..]; }
    assert LittleEndian(s[6..]) == s[6] as nat + 256 * LittleEndian(s[7..]) by { assert s[6..][1..] == s[7..]; }
    assert LittleEndian(s[5..]) == s[5] as nat + 256 * LittleEndian(s[6..]) by { assert s[5..][1..] == s[6..]; }
    assert LittleEndian(s[4..]) == s[4] as nat + 256 * LittleEndian(s[5..]) by { assert s[4..][1..] == s[5..]; }
    assert LittleEndian(s[3..]) == s[3] as nat + 256 * LittleEndian(s[4..]) by { assert s[3..][1..] == s[4..]; }
    assert LittleEndian(s[2..]) == s[2] as nat + 256 * LittleEndian(s[3..]) by { assert s[2..][1..] == s[3..]; }
    assert LittleEndian(s[1..]) == s[1] as nat + 256 * LittleEndian(s[2..]) by { assert s[1..][1..] == s[2..]; }
  }

  lemma EightBits()
    ensures Pow2(8) == 0x100
  {
  }

  /** `v |= uint64(b) << 8k`, where `v` so far holds the low `8k` bits: nothing in common, so or-ing adds. */
  lemma OrByte(v: nat, b: byte, k: nat, p: nat)
    requires p == Pow2(8 * k) && v < p
    ensures Or(v, p * b as nat) == v + p * b as nat < 0x100 * p
    ensures 0x100 * p == Pow2(8 * (k + 1))
  {
    OrDisjoint(v, b as nat, 8 * k);
    EightBits();
    Pow2Adds(8, 8 * k);
    hide Or, Pow2;
    assert 8 + 8 * k == 8 * (k + 1);
    MulMonotone(b as nat, 255, p);
  }

  /** Eight bytes, lowest first. */
  method GetFixed64(data: seq<byte>, index: nat) returns (r: Result<(nat, nat)>)
    requires index <= |data|
    ensures var p := ReadPayload(FIXED64, data[index..], |data|);
            match r
            case Fail(e) => p == Fail(e)
            case Ok((v, next)) => p.Ok? && p.value == (Number(v), next - index) && index <= next <= |data| && v < TWO_64
  {
    if index + 8 > |data| {
      return Fail(Truncated);
    }
    assert data[index..][..8] == data[index..index + 8];
    EightBytes(data[index..index + 8]);
    EightBits();
    hide LittleEndian, Or, Pow2;
    var v := data[index] as nat;
    OrByte(v, data[index + 1], 1, 0x100);
    v := Or(v, 0x100 * data[index + 1] as nat);
    OrByte(v, data[index + 2], 2, 0x1_0000);
    v := Or(v, 0x1_0000 * data[index + 2] as nat);
    OrByte(v, data[index + 3], 3, 0x100_0000);
    v := Or(v, 0x100_0000 * data[index + 3] as nat);
    OrByte(v, data[index + 4], 4, 0x1_0000_0000);
    v := Or(v, 0x1_0000_0000 * data[index + 4] as nat);
    OrByte(v, data[index + 5], 5, 0x100_0000_0000);
    v := Or(v, 0x100_0000_0000 * data[index + 5] as nat);
    OrByte(v, data[index + 6], 6, 0x1_0000_0000_0000);
    v := Or(v, 0x1_0000_0000_0000 * data[index + 6] as nat);
    OrByte(v, data[index + 7], 7, 0x100_0000_0000_0000);
    v := Or(v, 0x100_0000_0000_0000 * data[index + 7] as nat);
    return Ok((v, index + 8));
  }

  // ---------------------------------------------------------------------------------------------
  // skipLog
  // ---------------------------------------------------------------------------------------------

  /** `skipLog`. */
  method Skip(data: seq<byte>) returns (r: Result<int>)
    requires data != []
    ensures r == SkipLog(data)
    decreases |data|, 1
  {
    assert data[0..] == data;
    SkipLogCases(data);
    hide Head, Varint.Length, SkipGroup, SkipLog, AsInt;
    var ok, index, wire := GetTag(data, 0);
    if !ok {
      return Fail(Truncated);
    }
    if wire % 8 == VARINT {
      while true
        invariant index <= |data|
        invariant Varint.Length(data[Varint.Length(data)..]) == 0 <==> Varint.Length(data[index..]) == 0
        invariant Varint.Length(data[index..]) > 0 ==>
          index + Varint.Length(data[index..]) == Varint.Length(data) + Varint.Length(data[Varint.Length(data)..])
        decreases |data| - index
      {
        LengthStep(data, index);
        if index >= |data| {
          return Fail(Truncated);
        }
        index := index + 1;
        if data[index - 1] < 0x80 {
          return Ok(index);
        }
      }
    } else if wire % 8 == FIXED64 {
      return Ok(index + 8);
    } else if wire % 8 == BLOB {
      var ok, next, length := GetTag(data, index);
      if !ok {
        return Fail(Truncated);
      }
      return Ok(AsInt(next + length));
    } else if wire % 8 == GROUP {
      r := SkipFields(data, index);
    } else if wire % 8 == END_GROUP {
      return Ok(index);
    } else if wire % 8 == FIXED32 {
      return Ok(index + 4);
    } else {
      return Fail(IllegalWireType);
    }
  }

  lemma SkipLogCases(s: seq<byte>)
    requires s != []
    ensures SkipLog(s) == if Varint.Length(s) == 0 then Fail(Truncated)
                          else if Head(s) % 8 == GROUP then SkipGroup(s, Varint.Length(s), {})
                          else SkipFlat(Head(s) % 8, s, Varint.Length(s))
  {
    hide Head, Varint.Length, SkipGroup, SkipFlat;
  }

  lemma LengthStep(data: seq<byte>, index: nat)
    requires index <= |data|
    ensures index == |data| ==> Varint.Length(data[index..]) == 0
    ensures index < |data| && data[index] < 128 ==> Varint.Length(data[index..]) == 1
    ensures index < |data| && data[index] >= 128 ==>
      var n := Varint.Length(data[index + 1..]); Varint.Length(data[index..]) == if n == 0 then 0 else 1 + n
  {
    if index < |data| { assert data[index..][1..] == data[index + 1..]; }
  }

  /** The loop over the fields of a group.  It ends here when a position comes again, where the program would
      go on, and at position 0, where it would recurse, forever. */
  method SkipFields(data: seq<byte>, i: nat) returns (r: Result<int>)
    requires 1 <= i <= |data|
    ensures r == SkipGroup(data, i, {})
    decreases |data|, 0
  {
    hide Head, Varint.Length, SkipLog, SkipGroup, AsInt;
    var index: int := i;
    var visited: set<int> := {};
    while true
      invariant SkipGroup(data, i, {}) == SkipGroup(data, index, visited)
      decreases Positions(|data|) - visited
    {
      GroupCases(data, index, visited);
      if index >= |data| {
        return Fail(Truncated);
      }
      if index < 0 {
        return Fail(Crash);
      }
      var start := index;
      var ok, behind, wire := GetTag(data, index);
      if !ok {
        return Fail(Truncated);
      }
      if wire % 8 == END_GROUP {
        return Ok(behind);
      }
      if start == 0 || start in visited {
        return Fail(Stuck);
      }
      var next := Skip(data[start..]);
      if next.Fail? {
        return next;
      }
      IsPosition(|data|, start);
      index, visited := AsInt(start + next.value), visited + {start};
    }
  }

  lemma GroupCases(s: seq<byte>, i: int, visited: set<int>)
    ensures i >= |s| ==> SkipGroup(s, i, visited) == Fail(Truncated)
    ensures i < 0 ==> SkipGroup(s, i, visited) == Fail(Crash)
    ensures 0 <= i < |s| && Varint.Length(s[i..]) == 0 ==> SkipGroup(s, i, visited) == Fail(Truncated)
    ensures 0 <= i < |s| && Varint.Length(s[i..]) > 0 && Head(s[i..]) % 8 == END_GROUP ==>
      SkipGroup(s, i, visited) == Ok(i + Varint.Length(s[i..]))
    ensures 0 <= i < |s| && Varint.Length(s[i..]) > 0 && Head(s[i..]) % 8 != END_GROUP ==>
      && (i == 0 || i in visited ==> SkipGroup(s, i, visited) == Fail(Stuck))
      && (i != 0 && i !in visited && SkipLog(s[i..]).Fail? ==> SkipGroup(s, i, visited) == SkipLog(s[i..]))
      && (i != 0 && i !in visited && SkipLog(s[i..]).Ok? ==>
            SkipGroup(s, i, visited) == SkipGroup(s, AsInt(i + SkipLog(s[i..]).value), visited + {i}))
  {
    hide Head, Varint.Length, SkipLog, AsInt;
  }

  // ---------------------------------------------------------------------------------------------
  // One round of Unmarshal
  // ---------------------------------------------------------------------------------------------

  /** What `case num:` reads: the wire type is checked first, then the payload is taken from `s`, the rest of an
      input of `l` bytes. */
  function Case(num: int, kind: int, wire: nat, s: seq<byte>, l: int): (r: Result<(Payload, nat)>)
    ensures r.Ok? ==> r.value.1 <= |s|
  {
    if wire % 8 != kind then Fail(WrongWireType(num)) else ReadPayload(kind, s, l)
  }

  /** What one round does at position `index`, seen from the schema: `next` is the position behind the tag. */
  lemma {:induction false} Round<M>(sc: Schema<M>, data: seq<byte>, index: nat, next: nat, m: M, seen: set<int>)
    requires index < |data| && Varint.Length(data[index..]) > 0
    requires next == index + Varint.Length(data[index..]) <= |data|
    requires data[index..][Varint.Length(data[index..])..] == data[next..]
    requires sc.kind(FieldNum(Head(data[index..]))) != UNKNOWN
    ensures var num := FieldNum(Head(data[index..]));
            Decode(sc, data[index..], |data|, m, seen) ==
              match Case(num, sc.kind(num), Head(data[index..]), data[next..], |data|)
              case Fail(e) => Fail(e)
              case Ok((payload, size)) =>
                match sc.apply(m, num, payload)
                case Fail(e) => Fail(e)
                case Ok(m') => Decode(sc, data[next + size..], |data|, m', seen + {num})
  {
    hide *;
    var num := FieldNum(Head(data[index..]));
    DecodeRound(sc, data[index..], |data|, m, seen);
    CaseIs(num, sc.kind(num), Head(data[index..]), data[next..], |data|);
    var r := Case(num, sc.kind(num), Head(data[index..]), data[next..], |data|);
    if r.Ok? {
      Seqs.Split(data, next, next + r.value.1, |data|);
    }
  }

  lemma CaseIs(num: int, kind: int, wire: nat, s: seq<byte>, l: int)
    ensures Case(num, kind, wire, s, l) ==
              if wire % 8 != kind then Fail(WrongWireType(num)) else ReadPayload(kind, s, l)
  {
  }

  /** A varint field into a variable that holds `acc0`, of 64 bits or of 32. */
  method NumberCase(data: seq<byte>, next: nat, num: int, wire: nat, width: nat, acc0: nat)
    returns (r: Result<(nat, nat)>)
    requires next <= |data| && (width == 32 || width == 64)
    ensures var c := Case(num, VARINT, wire, data[next..], |data|);
            match r
            case Fail(e) => c == Fail(e)
            case Ok((acc, after)) =>
              && c.Ok? && after == next + c.value.1
              && acc == Or(acc0, if width == 64 then Num(c.value.0) else Num(c.value.0) % TWO_32)
  {
    NumberAt(data[next..], |data|);
    hide Head, Varint.Length, ReadPayload, Or, Pow2;
    if wire % 8 != VARINT {
      return Fail(WrongWireType(num));
    }
    var ok, after, acc := GetNumber(data, next, width, acc0);
    if !ok {
      return Fail(Truncated);
    }
    return Ok((acc, after));
  }

  /** A length-prefixed field. */
  method BlobCase(data: seq<byte>, next: nat, num: int, wire: nat) returns (r: Result<(seq<byte>, nat)>)
    requires next <= |data| < TWO_63
    ensures var c := Case(num, BLOB, wire, data[next..], |data|);
            match r
            case Fail(e) => c == Fail(e)
            case Ok((b, after)) =>
              c.Ok? && after == next + c.value.1 && c.value.0 == Bytes(b) && |b| < TWO_63
  {
    hide ReadPayload;
    if wire % 8 != BLOB {
      return Fail(WrongWireType(num));
    }
    r := GetBlob(data, next);
  }

  /** An eight-byte field. */
  method Fixed64Case(data: seq<byte>, next: nat, num: int, wire: nat) returns (r: Result<(nat, nat)>)
    requires next <= |data|
    ensures var c := Case(num, FIXED64, wire, data[next..], |data|);
            match r
            case Fail(e) => c == Fail(e)
            case Ok((v, after)) => c.Ok? && after == next + c.value.1 && c.value.0 == Number(v) && v < TWO_64
  {
    hide ReadPayload;
    if wire % 8 != FIXED64 {
      return Fail(WrongWireType(num));
    }
    r := GetFixed64(data, next);
  }

  /** The default case: rewind to the shortest form of the tag, skip, and hand out the skipped bytes.  When the
      position stays, the loop would never end. */
  method SkipUnknown(data: seq<byte>, index: nat, next: nat, wire: nat) returns (r: Result<(seq<byte>, nat)>)
    requires index < |data| < TWO_63 && Varint.Length(data[index..]) > 0
    requires next == index + Varint.Length(data[index..]) && wire == Head(data[index..])
    ensures var s := data[index..]; var i := TagStart(s); var p := Passed(SkipLog(s[i..]), i, s, |data|);
            match r
            case Fail(e) => p == Fail(e)
            case Ok((b, after)) =>
              && p.Ok? && after == index + i + p.value <= |data|
              && b == s[i..i + p.value] && data[after..] == s[i + p.value..]
  {
    hide Head, Varint.Length, SkipLog, Varint.Encode, TagStart, AsInt, Passed;
    ghost var i := TagStart(data[index..]);
    TagStartIs(data[index..]);
    var sizeOfWire := Varint.SizeOf(wire);
    var start := next - sizeOfWire;
    Seqs.Split(data, index, start, |data|);
    var skippy := Skip(data[start..]);
    UnknownOutcome(skippy, data, index, start);
    if skippy.Fail? {
      return Fail(skippy.error);
    }
    var after := AsInt(start + skippy.value);
    if after > |data| {
      return Fail(Truncated);
    }
    if after < start {
      return Fail(Crash);
    }
    if after == index {
      return Fail(Stuck);
    }
    Seqs.Split(data, index, after, |data|);
    assert data[index..][i..i + skippy.value] == data[start..after];
    return Ok((data[start..after], after));
  }

  /** The tests on the wrapped sum come out as the specification says. */
  lemma UnknownOutcome(r: Result<int>, data: seq<byte>, index: nat, start: nat)
    requires index <= start < |data| < TWO_63 && r == SkipLog(data[start..])
    ensures var p := Passed(r, start - index, data[index..], |data|);
            && (r.Fail? ==> p == Fail(r.error))
            && (r.Ok? ==>
                  var after := AsInt(start + r.value);
                  && (after > |data| ==> p == Fail(Truncated))
                  && (after < start ==> p == Fail(Crash))
                  && (start <= after <= |data| && after == index ==> p == Fail(Stuck))
                  && (start <= after <= |data| && after != index ==> p == Ok(r.value) && after == start + r.value))
  {
    if r.Ok? {
      SkipRange(data[start..]);
      hide SkipLog;
      SumOutcome(start, r.value);
    }
    hide AsInt;
  }

  /** Up to the field of eight bytes at the end of the largest slice, what `skipLog` returns is an `int`. */
  lemma SkipRange(s: seq<byte>)
    requires s != [] && |s| < TWO_63 && SkipLog(s).Ok?
    ensures -TWO_63 <= SkipLog(s).value && (SkipLog(s).value < TWO_63 || SkipLog(s).value <= |s| + 8)
  {
    SkipLogCases(s);
    hide Head, Varint.Length, SkipLog, SkipGroup, AsInt;
    if Head(s) % 8 == GROUP {
      GroupRange(s, Varint.Length(s), {});
    } else {
      FlatRange(Head(s) % 8, s, Varint.Length(s));
    }
  }

  lemma FlatRange(kind: int, s: seq<byte>, n: nat)
    requires n <= |s| < TWO_63 && SkipFlat(kind, s, n).Ok?
    ensures var v := SkipFlat(kind, s, n).value;
            -TWO_63 <= v && (v < TWO_63 || v <= |s| + 8)
  {
    hide Head, Varint.Length;
  }

  lemma {:induction false} GroupRange(s: seq<byte>, i: int, visited: set<int>)
    requires |s| < TWO_63 && SkipGroup(s, i, visited).Ok?
    ensures 0 <= SkipGroup(s, i, visited).value <= |s|
    decreases Positions(|s|) - visited
  {
    GroupCases(s, i, visited);
    hide Head, SkipLog, SkipGroup, AsInt;
    if Varint.Length(s[i..]) > 0 && Head(s[i..]) % 8 != END_GROUP {
      IsPosition(|s|, i);
      GroupRange(s, AsInt(i + SkipLog(s[i..]).value), visited + {i});
    }
  }

  lemma SumOutcome(start: nat, v: int)
    requires start < TWO_63 && -TWO_63 <= v && start + v < TWO_64
    ensures start + v < TWO_63 ==> AsInt(start + v) == start + v
    ensures start + v >= TWO_63 ==> AsInt(start + v) < 0
  {
  }

  lemma TagStartIs(s: seq<byte>)
    requires Varint.Length(s) > 0
    ensures TagStart(s) == Varint.Length(s) - |Varint.Encode(Head(s))|
  {
  }

  lemma RoundUnknown<M>(sc: Schema<M>, data: seq<byte>, index: nat, m: M, seen: set<int>)
    requires index < |data| && Varint.Length(data[index..]) > 0
    requires sc.kind(FieldNum(Head(data[index..]))) == UNKNOWN
    ensures var s := data[index..]; var i := TagStart(s); var p := Passed(SkipLog(s[i..]), i, s, |data|);
            && (p.Fail? ==> Decode(sc, s, |data|, m, seen) == Fail(p.error))
            && (p.Ok? ==>
                  Decode(sc, s, |data|, m, seen)
                  == Decode(sc, s[i + p.value..], |data|, sc.keep(m, s[i..i + p.value]), seen))
  {
    DecodeUnknownRound(sc, data[index..], |data|, m, seen);
    hide Head, Varint.Length, SkipLog, TagStart, Decode, FieldNum, Passed;
  }

  lemma NoTag<M>(sc: Schema<M>, s: seq<byte>, l: int, m: M, seen: set<int>)
    requires s != [] && Varint.Length(s) == 0
    ensures Decode(sc, s, l, m, seen) == Fail(Truncated)
  {
  }

  lemma AtEnd<M>(sc: Schema<M>, l: int, m: M, seen: set<int>)
    ensures Decode(sc, [], l, m, seen) == Finish(sc.required, m, seen)
  {
  }

  /** The payload of a varint field. */
  lemma NumberAt(s: seq<byte>, l: int)
    ensures ReadPayload(VARINT, s, l) ==
              if Varint.Length(s) == 0 then Fail(Truncated) else Ok((Number(Head(s)), Varint.Length(s)))
    ensures Num(Number(Head(s))) == Head(s)
    ensures Pow2(32) == TWO_32 && Pow2(64) == TWO_64 && Head(s) % Pow2(64) == Head(s)
  {
    Pow2Values();
    ModSmall(Head(s), Pow2(64));
  }

  lemma Finishes<M>(m: M, seen: set<int>)
    ensures Finish([1, 2], m, seen) == if 1 !in seen then Fail(RequiredNotSet(1))
                                       else if 2 !in seen then Fail(RequiredNotSet(2)) else Ok(m)
    ensures Finish([1], m, seen) == if 1 !in seen then Fail(RequiredNotSet(1)) else Ok(m)
    ensures Finish([], m, seen) == Ok(m)
  {
    assert [1, 2][1..] == [2] && [2][1..] == [] && [1][1..] == [];
    assert Finish([2], m, seen) == if 2 !in seen then Fail(RequiredNotSet(2)) else Ok(m);
  }

  method UnmarshalInterval(data: seq<byte>, m0: Interval) returns (r: Result<Interval>)
    requires |data| < TWO_63
    ensures r == Decode(IntervalSchema(), data, |data|, m0, {})
  {
    ghost var sc := IntervalSchema();
    hide Head, FieldNum, Varint.Length, Decode, Case, TagStart, SkipLog, Passed, Or, Finish;
    var m, index := m0, 0;
    var hasSeconds, hasNanoseconds := false, false;
    ghost var seen: set<int> := {};
    assert data[0..] == data;
    while index < |data|
      invariant 0 <= index <= |data|
      invariant hasSeconds == (1 in seen) && hasNanoseconds == (2 in seen)
      invariant Decode(sc, data, |data|, m0, {}) == Decode(sc, data[index..], |data|, m, seen)
    {
      var ok, next, wire := GetTag(data, index);
      if !ok {
        NoTag(sc, data[index..], |data|, m, seen);
        return Fail(Truncated);
      }
      var num := FieldNum(wire);
      if num == 1 {
        Round(sc, data, index, next, m, seen);
        var v := NumberCase(data, next, 1, wire, 64, m.seconds);
        if v.Fail? {
          return Fail(v.error);
        }
        m, index := m.(seconds := v.value.0), v.value.1;
        hasSeconds, seen := true, seen + {1};
      } else if num == 2 {
        Round(sc, data, index, next, m, seen);
        var v := NumberCase(data, next, 2, wire, 32, m.nanoseconds);
        if v.Fail? {
          return Fail(v.error);
        }
        m, index := m.(nanoseconds := v.value.0), v.value.1;
        hasNanoseconds, seen := true, seen + {2};
      } else {
        RoundUnknown(sc, data, index, m, seen);
        var skipped := SkipUnknown(data, index, next, wire);
        if skipped.Fail? {
          return Fail(skipped.error);
        }
        m := m.(unknown := m.unknown + skipped.value.0);
        index := skipped.value.1;
      }
    }
    assert data[index..] == [];
    AtEnd(sc, |data|, m, seen);
    Finishes(m, seen);
    if !hasSeconds {
      return Fail(RequiredNotSet(1));
    }
    if !hasNanoseconds {
      return Fail(RequiredNotSet(2));
    }
    return Ok(m);
  }

  method UnmarshalAttribute(data: seq<byte>, m0: Attribute) returns (r: Result<Attribute>)
    requires |data| < TWO_63
    ensures r == Decode(AttributeSchema(), data, |data|, m0, {})
  {
    ghost var sc := AttributeSchema();
    hide Head, FieldNum, Varint.Length, Decode, Case, TagStart, SkipLog, Passed, Or, Finish;
    var m, index := m0, 0;
    var hasKey := false;
    ghost var seen: set<int> := {};
    assert data[0..] == data;
    while index < |data|
      invariant 0 <= index <= |data|
      invariant hasKey == (1 in seen)
      invariant Decode(sc, data, |data|, m0, {}) == Decode(sc, data[index..], |data|, m, seen)
    {
      var ok, next, wire := GetTag(data, index);
      if !ok {
        NoTag(sc, data[index..], |data|, m, seen);
        return Fail(Truncated);
      }
      var num := FieldNum(wire);
      if num == 1 {
        Round(sc, data, index, next, m, seen);
        var v := NumberCase(data, next, 1, wire, 32, m.key);
        if v.Fail? {
          return Fail(v.error);
        }
        m, index := m.(key := v.value.0), v.value.1;
        hasKey, seen := true, seen + {1};
      } else if num == 2 {
        Round(sc, data, index, next, m, seen);
        var b := BlobCase(data, next, 2, wire);
        if b.Fail? {
          return Fail(b.error);
        }
        m, index := m.(skey := Some(b.value.0)), b.value.1;
        seen := seen + {2};
      } else if num == 3 {
        Round(sc, data, index, next, m, seen);
        var v := NumberCase(data, next, 3, wire, 64, 0);
        if v.Fail? {
          return Fail(v.error);
        }
        m, index := m.(ival := Some(Unzigzag(v.value.0))), v.value.1;
        seen := seen + {3};
      } else if num == 4 {
        Round(sc, data, index, next, m, seen);
        var b := BlobCase(data, next, 4, wire);
        if b.Fail? {
          return Fail(b.error);
        }
        m, index := m.(sval := Some(b.value.0)), b.value.1;
        seen := seen + {4};
      } else if num == 5 {
        Round(sc, data, index, next, m, seen);
        var b := BlobCase(data, next, 5, wire);
        if b.Fail? {
          return Fail(b.error);
        }
        m, index := m.(bval := Some(b.value.0)), b.value.1;
        seen := seen + {5};
      } else if num == 6 {
        Round(sc, data, index, next, m, seen);
        var b := BlobCase(data, next, 6, wire);
        if b.Fail? {
          return Fail(b.error);
        }
        var inner := UnmarshalInterval(b.value.0, if m.tval.Some? then m.tval.value else ZERO_INTERVAL);
        if inner.Fail? {
          return Fail(inner.error);
        }
        m, index := m.(tval := Some(inner.value)), b.value.1;
        seen := seen + {6};
      } else if num == 7 {
        Round(sc, data, index, next, m, seen);
        var v := NumberCase(data, next, 7, wire, 64, 0);
        if v.Fail? {
          return Fail(v.error);
        }
        m, index := m.(boolval := Some(v.value.0 != 0)), v.value.1;
        seen := seen + {7};
      } else if num == 8 {
        Round(sc, data, index, next, m, seen);
        var v := Fixed64Case(data, next, 8, wire);
        if v.Fail? {
          return Fail(v.error);
        }
        m, index := m.(fval := Some(v.value.0)), v.value.1;
        seen := seen + {8};
      } else {
        RoundUnknown(sc, data, index, m, seen);
        var skipped := SkipUnknown(data, index, next, wire);
        if skipped.Fail? {
          return Fail(skipped.error);
        }
        m := m.(unknown := m.unknown + skipped.value.0);
        index := skipped.value.1;
      }
    }
    assert data[index..] == [];
    AtEnd(sc, |data|, m, seen);
    Finishes(m, seen);
    if !hasKey {
      return Fail(RequiredNotSet(1));
    }
    return Ok(m);
  }

  method UnmarshalTag(data: seq<byte>, m0: Tag) returns (r: Result<Tag>)
    requires |data| < TWO_63
    ensures r == Decode(TagSchema(), data, |data|, m0, {})
  {
    ghost var sc := TagSchema();
    hide Head, FieldNum, Varint.Length, Decode, Case, TagStart, SkipLog, Passed, Or, Finish;
    var m, index := m0, 0;
    var hasName := false;
    ghost var seen: set<int> := {};
    assert data[0..] == data;
    while index < |data|
      invariant 0 <= index <= |data|
      invariant hasName == (1 in seen)
      invariant Decode(sc, data, |data|, m0, {}) == Decode(sc, data[index..], |data|, m, seen)
    {
      var ok, next, wire := GetTag(data, index);
      if !ok {
        NoTag(sc, data[index..], |data|, m, seen);
        return Fail(Truncated);
      }
      var num := FieldNum(wire);
      if num == 1 {
        Round(sc, data, index, next, m, seen);
        var b := BlobCase(data, next, 1, wire);
        if b.Fail? {
          return Fail(b.error);
        }
        m, index := m.(name := b.value.0), b.value.1;
        hasName, seen := true, seen + {1};
      } else if num == 2 {
        Round(sc, data, index, next, m, seen);
        var b := BlobCase(data, next, 2, wire);
        if b.Fail? {
          return Fail(b.error);
        }
        m, index := m.(value := Some(b.value.0)), b.value.1;
        seen := seen + {2};
      } else {
        RoundUnknown(sc, data, index, m, seen);
        var skipped := SkipUnknown(data, index, next, wire);
        if skipped.Fail? {
          return Fail(skipped.error);
        }
        m := m.(unknown := m.unknown + skipped.value.0);
        index := skipped.value.1;
      }
    }
    assert data[index..] == [];
    AtEnd(sc, |data|, m, seen);
    Finishes(m, seen);
    if !hasName {
      return Fail(RequiredNotSet(1));
    }
    return Ok(m);
  }

  method UnmarshalMessage(data: seq<byte>, m0: Message) returns (r: Result<Message>)
    requires |data| < TWO_63
    ensures r == Decode(MessageSchema(), data, |data|, m0, {})
  {
    ghost var sc := MessageSchema();
    hide Head, FieldNum, Varint.Length, Decode, Case, TagStart, SkipLog, Passed, Or, Finish;
    var m, index := m0, 0;
    var hasTimestamp, hasType := false, false;
    ghost var seen: set<int> := {};
    assert data[0..] == data;
    while index < |data|
      invariant 0 <= index <= |data|
      invariant hasTimestamp == (1 in seen) && hasType == (2 in seen)
      invariant Decode(sc, data, |data|, m0, {}) == Decode(sc, data[index..], |data|, m, seen)
    {
      var ok, next, wire := GetTag(data, index);
      if !ok {
        NoTag(sc, data[index..], |data|, m, seen);
        return Fail(Truncated);
      }
      var num := FieldNum(wire);
      if num == 6 {
        Round(sc, data, index, next, m, seen);
        var v := NumberCase(data, next, 6, wire, 32, ToUnsigned(m.version, TWO_32));
        if v.Fail? {
          return Fail(v.error);
        }
        m, index := m.(version := ToSigned(v.value.0, TWO_32)), v.value.1;
        seen := seen + {6};
      } else if num == 1 {
        Round(sc, data, index, next, m, seen);
        var b := BlobCase(data, next, 1, wire);
        if b.Fail? {
          return Fail(b.error);
        }
        var inner := UnmarshalInterval(b.value.0, if m.timestamp.Some? then m.timestamp.value else ZERO_INTERVAL);
        if inner.Fail? {
          return Fail(inner.error);
        }
        m, index := m.(timestamp := Some(inner.value)), b.value.1;
        hasTimestamp, seen := true, seen + {1};
      } else if num == 2 {
        Round(sc, data, index, next, m, seen);
        var v := NumberCase(data, next, 2, wire, 32, 0);
        if v.Fail? {
          return Fail(v.error);
        }
        m, index := m.(typ := Some(v.value.0)), v.value.1;
        hasType, seen := true, seen + {2};
      } else if num == 3 {
        Round(sc, data, index, next, m, seen);
        var b := BlobCase(data, next, 3, wire);
        if b.Fail? {
          return Fail(b.error);
        }
        var inner := UnmarshalAttribute(b.value.0, ZERO_ATTRIBUTE);
        if inner.Fail? {
          return Fail(inner.error);
        }
        m, index := m.(attributes := m.attributes + [inner.value]), b.value.1;
        seen := seen + {3};
      } else if num == 4 {
        Round(sc, data, index, next, m, seen);
        var b := BlobCase(data, next, 4, wire);
        if b.Fail? {
          return Fail(b.error);
        }
        m, index := m.(session := Some(b.value.0)), b.value.1;
        seen := seen + {4};
      } else if num == 5 {
        Round(sc, data, index, next, m, seen);
        var b := BlobCase(data, next, 5, wire);
        if b.Fail? {
          return Fail(b.error);
        }
        var inner := UnmarshalTag(b.value.0, ZERO_TAG);
        if inner.Fail? {
          return Fail(inner.error);
        }
        m, index := m.(tags := m.tags + [inner.value]), b.value.1;
        seen := seen + {5};
      } else {
        RoundUnknown(sc, data, index, m, seen);
        var skipped := SkipUnknown(data, index, next, wire);
        if skipped.Fail? {
          return Fail(skipped.error);
        }
        m := m.(unknown := m.unknown + skipped.value.0);
        index := skipped.value.1;
      }
    }
    assert data[index..] == [];
    AtEnd(sc, |data|, m, seen);
    Finishes(m, seen);
    if !hasTimestamp {
      return Fail(RequiredNotSet(1));
    }
    if !hasType {
      return Fail(RequiredNotSet(2));
    }
    return Ok(m);
  }

  method UnmarshalHeader(data: seq<byte>, m0: StreamHeader) returns (r: Result<StreamHeader>)
    requires |data| < TWO_63
    ensures r == Decode(HeaderSchema(), data, |data|, m0, {})
  {
    ghost var sc := HeaderSchema();
    hide Head, FieldNum, Varint.Length, Decode, Case, TagStart, SkipLog, Passed, Or, Finish;
    var m, index := m0, 0;
    ghost var seen: set<int> := {};
    assert data[0..] == data;
    while index < |data|
      invariant 0 <= index <= |data|
      invariant Decode(sc, data, |data|, m0, {}) == Decode(sc, data[index..], |data|, m, seen)
    {
      var ok, next, wire := GetTag(data, index);
      if !ok {
        NoTag(sc, data[index..], |data|, m, seen);
        return Fail(Truncated);
      }
      var num := FieldNum(wire);
      if num == 1 {
        Round(sc, data, index, next, m, seen);
        var v := NumberCase(data, next, 1, wire, 32, 0);
        if v.Fail? {
          return Fail(v.error);
        }
        m, index := m.(compression := Some(ToSigned(v.value.0, TWO_32))), v.value.1;
        seen := seen + {1};
      } else if num == 2 {
        Round(sc, data, index, next, m, seen);
        var v := NumberCase(data, next, 2, wire, 32, 0);
        if v.Fail? {
          return Fail(v.error);
        }
        m, index := m.(mode := Some(ToSigned(v.value.0, TWO_32))), v.value.1;
        seen := seen + {2};
      } else {
        RoundUnknown(sc, data, index, m, seen);
        var skipped := SkipUnknown(data, index, next, wire);
        if skipped.Fail? {
          return Fail(skipped.error);
        }
        m := m.(unknown := m.unknown + skipped.value.0);
        index := skipped.value.1;
      }
    }
    assert data[index..] == [];
    AtEnd(sc, |data|, m, seen);
    Finishes(m, seen);
    return Ok(m);
  }
}
