/** What lengths that are out of range do to the decoder.  The generated code reads a length into an `int` and
    never asks whether it is negative: `skipLog` can run forever, and so can `Unmarshal`, or a slice panics.
    Here is when they return. */
module WireLengths {

  import opened Wrappers
  import opened Bits
  import opened Wire
  import opened WireFields
  import opened Messages
  import Varint

  // ---------------------------------------------------------------------------------------------
  // Stuck means endless
  // ---------------------------------------------------------------------------------------------

  /** The next position of the inner loop of `skipLog(s)`, if its round at position `i` leads to one. */
  function Move(s: seq<byte>, i: int): Option<int> {
    if !(0 < i < |s|) || Varint.Length(s[i..]) == 0 || Head(s[i..]) % 8 == END_GROUP || SkipLog(s[i..]).Fail? then None
    else Some(AsInt(i + SkipLog(s[i..]).value))
  }

  /** The position after `n` more rounds, if the loop is still running. */
  function AfterRounds(s: seq<byte>, i: int, n: nat): Option<int>
    decreases n
  {
    if n == 0 then Some(i)
    else if Move(s, i).None? then None
    else AfterRounds(s, Move(s, i).value, n - 1)
  }

  /** At position `p` the loop makes a recursive call that does not return: on the same input, or on one on
      which it is stuck itself. */
  predicate Hangs(s: seq<byte>, p: int) {
    && 0 <= p < |s| && Varint.Length(s[p..]) > 0 && Head(s[p..]) % 8 != END_GROUP
    && (p == 0 || SkipLog(s[p..]) == Fail(Stuck))
  }

  ghost predicate Forever(s: seq<byte>, i: int) {
    forall n: nat :: AfterRounds(s, i, n).Some?
  }

  ghost predicate ComesToHang(s: seq<byte>, i: int) {
    exists n: nat :: AfterRounds(s, i, n).Some? && Hangs(s, AfterRounds(s, i, n).value)
  }

  lemma {:induction false} RoundsAdd(s: seq<byte>, i: int, a: nat, b: nat)
    requires AfterRounds(s, i, a).Some?
    ensures AfterRounds(s, i, a + b) == AfterRounds(s, AfterRounds(s, i, a).value, b)
    decreases a
  {
    hide Move;
    if a > 0 { RoundsAdd(s, Move(s, i).value, a - 1, b); }
  }

  lemma {:induction false} FewerRounds(s: seq<byte>, i: int, a: nat, b: nat)
    requires a <= b && AfterRounds(s, i, b).Some?
    ensures AfterRounds(s, i, a).Some?
    decreases a
  {
    hide Move;
    if a > 0 { FewerRounds(s, Move(s, i).value, a - 1, b - 1); }
  }

  /** A position that comes again comes again and again. */
  lemma {:induction false} Cycle(s: seq<byte>, i: int, k: nat, n: nat)
    requires k >= 1 && AfterRounds(s, i, k) == Some(i)
    ensures AfterRounds(s, i, n).Some?
    decreases n
  {
    hide Move;
    if n < k {
      FewerRounds(s, i, n, k);
    } else {
      Cycle(s, i, k, n - k);
      RoundsAdd(s, i, k, n - k);
    }
  }

  /** From every position in `visited` some rounds have led to `i`. */
  ghost predicate LedTo(s: seq<byte>, visited: set<int>, i: int) {
    forall v | v in visited :: exists k: nat :: k >= 1 && AfterRounds(s, v, k) == Some(i)
  }

  lemma LedToNext(s: seq<byte>, visited: set<int>, i: int, j: int)
    requires LedTo(s, visited, i) && Move(s, i) == Some(j)
    ensures LedTo(s, visited + {i}, j)
  {
    hide Move;
    forall v | v in visited + {i}
      ensures exists k: nat :: k >= 1 && AfterRounds(s, v, k) == Some(j)
    {
      assert AfterRounds(s, i, 1) == Some(j) by { assert AfterRounds(s, j, 0) == Some(j); }
      if v in visited {
        var k: nat :| k >= 1 && AfterRounds(s, v, k) == Some(i);
        RoundsAdd(s, v, k, 1);
      }
    }
  }

  lemma EndlessFromNext(s: seq<byte>, i: int, j: int)
    requires Move(s, i) == Some(j)
    ensures Forever(s, i) <==> Forever(s, j)
    ensures ComesToHang(s, i) <==> Hangs(s, i) || ComesToHang(s, j)
  {
    hide Move, Hangs;
    forall n: nat
      ensures AfterRounds(s, i, n + 1) == AfterRounds(s, j, n)
    {
    }
    if Forever(s, i) {
      forall n: nat ensures AfterRounds(s, j, n).Some? { assert AfterRounds(s, i, n + 1).Some?; }
    }
    if Forever(s, j) {
      forall n: nat ensures AfterRounds(s, i, n).Some? { if n > 0 { assert AfterRounds(s, j, n - 1).Some?; } }
    }
    if n: nat :| AfterRounds(s, j, n).Some? && Hangs(s, AfterRounds(s, j, n).value) {
      assert AfterRounds(s, i, n + 1).Some? && Hangs(s, AfterRounds(s, i, n + 1).value);
    }
    if Hangs(s, i) { assert AfterRounds(s, i, 0) == Some(i); }
    if n: nat :| AfterRounds(s, i, n).Some? && Hangs(s, AfterRounds(s, i, n).value) {
      if n > 0 { assert AfterRounds(s, j, n - 1).Some? && Hangs(s, AfterRounds(s, j, n - 1).value); }
    }
  }

  lemma NoNext(s: seq<byte>, i: int)
    requires Move(s, i).None?
    ensures !Forever(s, i)
    ensures ComesToHang(s, i) <==> Hangs(s, i)
  {
    hide Move, Hangs;
    assert AfterRounds(s, i, 1).None?;
    assert AfterRounds(s, i, 0) == Some(i);
  }

  /** One round of the inner loop in terms of `Move`. */
  lemma RoundIs(s: seq<byte>, i: int, visited: set<int>)
    ensures Move(s, i).Some? ==>
      SkipGroup(s, i, visited) == if i in visited then Fail(Stuck) else SkipGroup(s, Move(s, i).value, visited + {i})
    ensures Hangs(s, i) ==> SkipGroup(s, i, visited) == Fail(Stuck)
    ensures Move(s, i).None? && !Hangs(s, i) && i !in visited ==> SkipGroup(s, i, visited) != Fail(Stuck)
    ensures Move(s, i).Some? ==> !Hangs(s, i)
  {
    hide Head, Varint.Length, SkipLog, AsInt;
  }

  lemma {:induction false} StuckIsEndless(s: seq<byte>, i: int, visited: set<int>)
    requires LedTo(s, visited, i) && SkipGroup(s, i, visited) == Fail(Stuck)
    ensures Forever(s, i) || ComesToHang(s, i)
    decreases Positions(|s|) - visited
  {
    RoundIs(s, i, visited);
    hide Move, Hangs, SkipGroup;
    if i in visited {
      var k: nat :| k >= 1 && AfterRounds(s, i, k) == Some(i);
      forall n: nat ensures AfterRounds(s, i, n).Some? { Cycle(s, i, k, n); }
    } else if Move(s, i).Some? {
      MoveIsPosition(s, i);
      LedToNext(s, visited, i, Move(s, i).value);
      StuckIsEndless(s, Move(s, i).value, visited + {i});
      EndlessFromNext(s, i, Move(s, i).value);
    } else {
      NoNext(s, i);
    }
  }

  lemma MoveIsPosition(s: seq<byte>, i: int)
    requires Move(s, i).Some?
    ensures i in Positions(|s|)
  {
    hide Head, Varint.Length, SkipLog, AsInt;
    IsPosition(|s|, i);
  }

  lemma {:induction false} EndlessIsStuck(s: seq<byte>, i: int, visited: set<int>)
    requires Forever(s, i) || ComesToHang(s, i)
    ensures SkipGroup(s, i, visited) == Fail(Stuck)
    decreases Positions(|s|) - visited
  {
    RoundIs(s, i, visited);
    hide Move, Hangs, SkipGroup;
    if Move(s, i).None? {
      NoNext(s, i);
    } else if i !in visited {
      MoveIsPosition(s, i);
      EndlessFromNext(s, i, Move(s, i).value);
      EndlessIsStuck(s, Move(s, i).value, visited + {i});
    }
  }

  /** What `Stuck` means, exactly: the inner loop of `skipLog` goes through any number of rounds, or comes to a
      field on which its recursive call does not return. */
  lemma StuckExactly(s: seq<byte>, i: int)
    ensures SkipGroup(s, i, {}) == Fail(Stuck) <==> Forever(s, i) || ComesToHang(s, i)
  {
    hide SkipGroup, Forever, ComesToHang;
    if SkipGroup(s, i, {}) == Fail(Stuck) { StuckIsEndless(s, i, {}); }
    if Forever(s, i) || ComesToHang(s, i) { EndlessIsStuck(s, i, {}); }
  }

  /** At position `p` the loop panics: it slices there, or its recursive call panics. */
  predicate Panics(s: seq<byte>, p: int) {
    || p < 0
    || (0 < p < |s| && Varint.Length(s[p..]) > 0 && Head(s[p..]) % 8 != END_GROUP && SkipLog(s[p..]) == Fail(Crash))
  }

  ghost predicate ComesToPanic(s: seq<byte>, i: int) {
    exists n: nat :: AfterRounds(s, i, n).Some? && Panics(s, AfterRounds(s, i, n).value)
  }

  lemma PanicFromNext(s: seq<byte>, i: int, j: int)
    requires Move(s, i) == Some(j)
    ensures ComesToPanic(s, i) <==> Panics(s, i) || ComesToPanic(s, j)
  {
    hide Move, Panics;
    assert AfterRounds(s, i, 0) == Some(i);
    if n: nat :| AfterRounds(s, j, n).Some? && Panics(s, AfterRounds(s, j, n).value) {
      assert AfterRounds(s, i, n + 1) == AfterRounds(s, j, n);
    }
    if n: nat :| AfterRounds(s, i, n).Some? && Panics(s, AfterRounds(s, i, n).value) && n > 0 {
      assert AfterRounds(s, j, n - 1) == AfterRounds(s, i, n);
    }
  }

  lemma PanicNow(s: seq<byte>, i: int)
    requires Move(s, i).None?
    ensures ComesToPanic(s, i) <==> Panics(s, i)
  {
    hide Move, Panics;
    assert AfterRounds(s, i, 0) == Some(i);
    forall n: nat | n > 0 ensures AfterRounds(s, i, n).None? {}
  }

  lemma PanicRoundIs(s: seq<byte>, i: int, visited: set<int>)
    ensures Panics(s, i) ==> Move(s, i).None? && (i !in visited ==> SkipGroup(s, i, visited) == Fail(Crash))
    ensures Move(s, i).None? && SkipGroup(s, i, visited) == Fail(Crash) ==> Panics(s, i)
  {
    hide Head, Varint.Length, SkipLog, AsInt;
  }

  /** A position that comes again leads to no panic, as it leads nowhere. */
  lemma AgainIsNoPanic(s: seq<byte>, i: int, k: nat)
    requires k >= 1 && AfterRounds(s, i, k) == Some(i)
    ensures !ComesToPanic(s, i)
  {
    hide Move, Panics;
    if n: nat :| AfterRounds(s, i, n).Some? && Panics(s, AfterRounds(s, i, n).value) {
      var p := AfterRounds(s, i, n).value;
      PanicRoundIs(s, p, {});
      assert AfterRounds(s, p, 1).None?;
      RoundsAdd(s, i, n, 1);
      Cycle(s, i, k, n + 1);
    }
  }

  lemma {:induction false} PanicRounds(s: seq<byte>, i: int, visited: set<int>)
    requires LedTo(s, visited, i)
    ensures SkipGroup(s, i, visited) == Fail(Crash) <==> ComesToPanic(s, i)
    decreases Positions(|s|) - visited
  {
    RoundIs(s, i, visited);
    PanicRoundIs(s, i, visited);
    hide Move, Hangs, Panics, SkipGroup;
    if i in visited {
      var k: nat :| k >= 1 && AfterRounds(s, i, k) == Some(i);
      AgainIsNoPanic(s, i, k);
      VisitedMoves(s, i, k);
    } else if Move(s, i).Some? {
      MoveIsPosition(s, i);
      LedToNext(s, visited, i, Move(s, i).value);
      PanicRounds(s, Move(s, i).value, visited + {i});
      PanicFromNext(s, i, Move(s, i).value);
    } else {
      PanicNow(s, i);
    }
  }

  lemma VisitedMoves(s: seq<byte>, i: int, k: nat)
    requires k >= 1 && AfterRounds(s, i, k).Some?
    ensures Move(s, i).Some?
  {
  }

  /** What `Crash` means, exactly: some number of rounds leads to a position before the input, or to a field on
      which the recursive call panics. */
  lemma CrashExactly(s: seq<byte>, i: int)
    ensures SkipGroup(s, i, {}) == Fail(Crash) <==> ComesToPanic(s, i)
  {
    PanicRounds(s, i, {});
  }

  // ---------------------------------------------------------------------------------------------
  // When skipLog returns
  // ---------------------------------------------------------------------------------------------

  /** The guards that `skipLog(s)` lacks, one for each way in which it fails to return. */
  predicate SkipReturns(s: seq<byte>)
    requires s != []
    decreases |s|, 1, Positions(|s|)
  {
    Varint.Length(s) > 0 && Head(s) % 8 == GROUP ==> GroupReturns(s, Varint.Length(s), {})
  }

  /** In the inner loop: the position is not before the input; a field does not start where the group itself
      does, nor at a place that was `visited`; and the same holds of that field and of what is behind it. */
  predicate GroupReturns(s: seq<byte>, i: int, visited: set<int>)
    decreases |s|, 0, Positions(|s|) - visited
  {
    if i >= |s| then true
    else if i < 0 then false
    else if Varint.Length(s[i..]) == 0 || Head(s[i..]) % 8 == END_GROUP then true
    else if i == 0 || i in visited || !SkipReturns(s[i..]) then false
    else if SkipLog(s[i..]).Fail? then true
    else
      IsPosition(|s|, i);
      GroupReturns(s, AsInt(i + SkipLog(s[i..]).value), visited + {i})
  }

  /** `skipLog` returns, with a length or an error, if and only if these guards would hold. */
  lemma {:induction false} SkipReturnsExactly(s: seq<byte>)
    requires s != []
    ensures SkipReturns(s) <==> !Lost(SkipLog(s))
    decreases |s|, 1, Positions(|s|)
  {
    hide Head, Varint.Length, SkipGroup, GroupReturns, AsInt;
    if Varint.Length(s) > 0 && Head(s) % 8 == GROUP {
      GroupReturnsExactly(s, Varint.Length(s), {});
    }
  }

  lemma {:induction false} GroupReturnsExactly(s: seq<byte>, i: int, visited: set<int>)
    ensures GroupReturns(s, i, visited) <==> !Lost(SkipGroup(s, i, visited))
    decreases |s|, 0, Positions(|s|) - visited
  {
    hide Head, Varint.Length, SkipLog, SkipReturns, AsInt;
    if 0 < i < |s| && Varint.Length(s[i..]) > 0 && Head(s[i..]) % 8 != END_GROUP && i !in visited {
      SkipReturnsExactly(s[i..]);
      if SkipLog(s[i..]).Ok? {
        IsPosition(|s|, i);
        GroupReturnsExactly(s, AsInt(i + SkipLog(s[i..]).value), visited + {i});
      }
    }
  }

  // ---------------------------------------------------------------------------------------------
  // When Unmarshal returns
  // ---------------------------------------------------------------------------------------------

  /** What is asked of the messages embedded in a field. */
  type Inner<!M> = (M, int, Payload) -> bool

  /** The guards that the source lacks.  In every round: the length of a known field does not take the position
      to 2^63, and the messages embedded in it meet `inner`; the guards of `skipLog` hold for an unknown field,
      the length it finds is not negative and does not take the position to 2^63, and the position moves. */
  predicate Fits<M>(sc: Schema<M>, inner: Inner<M>, s: seq<byte>, l: int, m: M)
    decreases |s|, 1
  {
    if s == [] || Varint.Length(s) == 0 then true
    else
      var num, n := FieldNum(Head(s)), Varint.Length(s);
      if sc.kind(num) == UNKNOWN then
        var i := TagStart(s);
        var r := SkipLog(s[i..]);
        SkipReturns(s[i..]) && (r.Ok? ==> FitsBehind(sc, inner, s, l, m, i, r.value))
      else if Head(s) % 8 != sc.kind(num) then true
      else
        LengthInRange(sc.kind(num), s[n..], l) &&
        var r := ReadPayload(sc.kind(num), s[n..], l);
        r.Ok? ==>
          var m' := sc.apply(m, num, r.value.0);
          inner(m, num, r.value.0) && (m'.Ok? ==> Fits(sc, inner, s[n + r.value.1..], l, m'.value))
  }

  /** The guards behind `skipLog`, when it returned `v` for the field whose tag starts at position `i` of `s`. */
  predicate FitsBehind<M>(sc: Schema<M>, inner: Inner<M>, s: seq<byte>, l: int, m: M, i: nat, v: int)
    requires i <= |s|
    decreases |s|, 0
  {
    && l - |s| + i + v < TWO_63
    && (i + v <= |s| ==> v >= 0 && i + v > 0 && Fits(sc, inner, s[i + v..], l, sc.keep(m, s[i..i + v])))
  }

  /** The length of a payload of wire type `kind` does not take the position to 2^63.  `b` is the rest of an input
      of `l` bytes. */
  predicate LengthInRange(kind: int, b: seq<byte>, l: int) {
    kind != VARINT && kind != FIXED64 && Varint.Length(b) > 0 ==> l - |b| + Varint.Length(b) + Head(b) < TWO_63
  }

  /** `inner` is exactly what the embedded messages need. */
  ghost predicate Decides<M(!new)>(sc: Schema<M>, inner: Inner<M>) {
    forall m, num, p :: inner(m, num, p) <==> !Lost(sc.apply(m, num, p))
  }

  lemma PassedReturns(r: Result<int>, i: nat, s: seq<byte>, l: int)
    requires i <= |s|
    ensures var p := Passed(r, i, s, l);
            Lost(p) <==>
              Lost(r) || (r.Ok? && (l - |s| + i + r.value >= TWO_63
                                    || (i + r.value <= |s| && (r.value < 0 || i + r.value <= 0))))
  {
  }

  lemma PayloadReturns(kind: int, b: seq<byte>, l: int)
    ensures !Lost(ReadPayload(kind, b, l)) <==> LengthInRange(kind, b, l)
  {
    hide Head, Varint.Length, LittleEndian;
  }

  lemma {:induction false} FinishReturns<M>(required: seq<int>, m: M, seen: set<int>)
    ensures !Lost(Finish(required, m, seen))
    decreases |required|
  {
    if required != [] { FinishReturns(required[1..], m, seen); }
  }

  /** `Unmarshal` returns, with a message or an error, if and only if these guards would hold. */
  lemma {:induction false} ReturnsExactly<M(!new)>(
    sc: Schema<M>, inner: Inner<M>, s: seq<byte>, l: int, m: M, seen: set<int>)
    requires Decides(sc, inner)
    ensures !Lost(Decode(sc, s, l, m, seen)) <==> Fits(sc, inner, s, l, m)
    decreases |s|
  {
    hide Head, FieldNum, ReadPayload, Varint.Length, SkipLog, TagStart, Passed, Decides, LengthInRange;
    if s == [] {
      FinishReturns(sc.required, m, seen);
    } else if Varint.Length(s) > 0 {
      var num, n := FieldNum(Head(s)), Varint.Length(s);
      if sc.kind(num) == UNKNOWN {
        UnknownReturns(sc, inner, s, l, m, seen);
      } else if Head(s) % 8 == sc.kind(num) {
        KnownReturns(sc, inner, s, l, m, seen);
      }
    }
  }

  lemma {:induction false} UnknownReturns<M(!new)>(
    sc: Schema<M>, inner: Inner<M>, s: seq<byte>, l: int, m: M, seen: set<int>)
    requires Decides(sc, inner)
    requires s != [] && Varint.Length(s) > 0 && sc.kind(FieldNum(Head(s))) == UNKNOWN
    ensures !Lost(Decode(sc, s, l, m, seen)) <==> Fits(sc, inner, s, l, m)
    decreases |s|, 0
  {
    hide Head, FieldNum, ReadPayload, Varint.Length, SkipLog, TagStart, Passed, Decode, Fits, Decides;
    var i := TagStart(s);
    TagFits(s);
    var r := SkipLog(s[i..]);
    PassedIs(r, i, s, l);
    DecodeUnknownRound(sc, s, l, m, seen);
    PassedReturns(r, i, s, l);
    FitsUnknown(sc, inner, s, l, m);
    if Passed(r, i, s, l).Ok? {
      var next := i + r.value;
      ReturnsExactly(sc, inner, s[next..], l, sc.keep(m, s[i..next]), seen);
    }
  }

  lemma TagFits(s: seq<byte>)
    requires Varint.Length(s) > 0
    ensures TagStart(s) < |s|
  {
  }

  lemma FitsUnknown<M>(sc: Schema<M>, inner: Inner<M>, s: seq<byte>, l: int, m: M)
    requires s != [] && Varint.Length(s) > 0 && sc.kind(FieldNum(Head(s))) == UNKNOWN && TagStart(s) < |s|
    ensures var r := SkipLog(s[TagStart(s)..]);
            Fits(sc, inner, s, l, m) ==
              (!Lost(r) && (r.Ok? ==> FitsBehind(sc, inner, s, l, m, TagStart(s), r.value)))
  {
    hide Head, FieldNum, Varint.Length, SkipLog, TagStart, SkipReturns, LengthInRange;
    SkipReturnsExactly(s[TagStart(s)..]);
  }

  lemma PassedIs(r: Result<int>, i: nat, s: seq<byte>, l: int)
    requires i <= |s|
    ensures Passed(r, i, s, l).Ok? ==> r.Ok? && Passed(r, i, s, l).value == r.value && 0 < i + r.value <= |s|
    ensures r.Ok? && l - |s| + i + r.value < TWO_63 && i + r.value <= |s| && r.value >= 0 && i + r.value > 0 ==>
              Passed(r, i, s, l).Ok?
  {
  }

  lemma {:induction false} KnownReturns<M(!new)>(
    sc: Schema<M>, inner: Inner<M>, s: seq<byte>, l: int, m: M, seen: set<int>)
    requires Decides(sc, inner)
    requires s != [] && Varint.Length(s) > 0 && sc.kind(FieldNum(Head(s))) != UNKNOWN
    requires Head(s) % 8 == sc.kind(FieldNum(Head(s)))
    ensures !Lost(Decode(sc, s, l, m, seen)) <==> Fits(sc, inner, s, l, m)
    decreases |s|, 0
  {
    var num, n := FieldNum(Head(s)), Varint.Length(s);
    hide Head, FieldNum, ReadPayload, Varint.Length, SkipLog, TagStart, Passed, Decode, LengthInRange;
    DecodeRound(sc, s, l, m, seen);
    PayloadReturns(sc.kind(num), s[n..], l);
    var r := ReadPayload(sc.kind(num), s[n..], l);
    if r.Ok? {
      var m' := sc.apply(m, num, r.value.0);
      assert inner(m, num, r.value.0) <==> !Lost(m');
      if m'.Ok? { ReturnsExactly(sc, inner, s[n + r.value.1..], l, m'.value, seen + {num}); }
    }
  }

  // ---------------------------------------------------------------------------------------------
  // ... each type of the source
  // ---------------------------------------------------------------------------------------------

  /** Nothing is embedded. */
  predicate Flat<M>(m: M, num: int, p: Payload) {
    true
  }

  predicate IntervalFits(m: Interval, s: seq<byte>) {
    Fits(IntervalSchema(), (m: Interval, num, p) => Flat(m, num, p), s, |s|, m)
  }

  predicate TagIsFit(m: Tag, s: seq<byte>) {
    Fits(TagSchema(), (m: Tag, num, p) => Flat(m, num, p), s, |s|, m)
  }

  predicate HeaderFits(m: StreamHeader, s: seq<byte>) {
    Fits(HeaderSchema(), (m: StreamHeader, num, p) => Flat(m, num, p), s, |s|, m)
  }

  /** An attribute embeds an interval. */
  predicate InAttribute(m: Attribute, num: int, p: Payload) {
    num == 6 ==> IntervalFits(if m.tval.Some? then m.tval.value else ZERO_INTERVAL, Messages.Blob(p))
  }

  predicate AttributeFits(m: Attribute, s: seq<byte>) {
    Fits(AttributeSchema(), InAttribute, s, |s|, m)
  }

  /** A message embeds its timestamp, its attributes and its tags. */
  predicate InMessage(m: Message, num: int, p: Payload) {
    && (num == 1 ==>
          IntervalFits(if m.timestamp.Some? then m.timestamp.value else ZERO_INTERVAL, Messages.Blob(p)))
    && (num == 3 ==> AttributeFits(ZERO_ATTRIBUTE, Messages.Blob(p)))
    && (num == 5 ==> TagIsFit(ZERO_TAG, Messages.Blob(p)))
  }

  predicate MessageFits(m: Message, s: seq<byte>) {
    Fits(MessageSchema(), InMessage, s, |s|, m)
  }

  /** `Unmarshal` of each type returns if and only if the guards hold, down to those of what is embedded. */
  lemma IntervalReturns(m: Interval, s: seq<byte>)
    ensures !Lost(Decode(IntervalSchema(), s, |s|, m, {})) <==> IntervalFits(m, s)
  {
    hide Fits, Decode;
    ReturnsExactly(IntervalSchema(), (m: Interval, num, p) => Flat(m, num, p), s, |s|, m, {});
  }

  lemma TagReturns(m: Tag, s: seq<byte>)
    ensures !Lost(Decode(TagSchema(), s, |s|, m, {})) <==> TagIsFit(m, s)
  {
    hide Fits, Decode;
    ReturnsExactly(TagSchema(), (m: Tag, num, p) => Flat(m, num, p), s, |s|, m, {});
  }

  lemma HeaderReturns(m: StreamHeader, s: seq<byte>)
    ensures !Lost(Decode(HeaderSchema(), s, |s|, m, {})) <==> HeaderFits(m, s)
  {
    hide Fits, Decode;
    ReturnsExactly(HeaderSchema(), (m: StreamHeader, num, p) => Flat(m, num, p), s, |s|, m, {});
  }

  lemma AttributeReturns(m: Attribute, s: seq<byte>)
    ensures !Lost(Decode(AttributeSchema(), s, |s|, m, {})) <==> AttributeFits(m, s)
  {
    hide Fits, Decode, IntervalFits, IntervalSchema;
    forall m: Attribute, num, p
      ensures InAttribute(m, num, p) <==> !Lost(AttributeSchema().apply(m, num, p))
    {
      IntervalReturns(if m.tval.Some? then m.tval.value else ZERO_INTERVAL, Messages.Blob(p));
    }
    ReturnsExactly(AttributeSchema(), InAttribute, s, |s|, m, {});
  }

  lemma MessageReturns(m: Message, s: seq<byte>)
    ensures !Lost(Decode(MessageSchema(), s, |s|, m, {})) <==> MessageFits(m, s)
  {
    hide Fits, Decode, IntervalFits, AttributeFits, TagIsFit, IntervalSchema, AttributeSchema, TagSchema;
    forall m: Message, num, p
      ensures InMessage(m, num, p) <==> !Lost(MessageSchema().apply(m, num, p))
    {
      IntervalReturns(if m.timestamp.Some? then m.timestamp.value else ZERO_INTERVAL, Messages.Blob(p));
      AttributeReturns(ZERO_ATTRIBUTE, Messages.Blob(p));
      TagReturns(ZERO_TAG, Messages.Blob(p));
    }
    ReturnsExactly(MessageSchema(), InMessage, s, |s|, m, {});
  }

  /** Every length that is read, down to those within skipped fields, is below 2^63 minus the position behind
      it, and embedded messages meet `inner`. */
  predicate InRange<M>(sc: Schema<M>, inner: Inner<M>, s: seq<byte>, l: int, m: M)
    decreases |s|
  {
    if s == [] || Varint.Length(s) == 0 then true
    else
      var num, n := FieldNum(Head(s)), Varint.Length(s);
      if sc.kind(num) == UNKNOWN then
        var i := TagStart(s);
        var r := SkipLog(s[i..]);
        && Steady(s[i..])
        && (r.Ok? ==> l - |s| + i + r.value < TWO_63)
        && (r.Ok? && 0 < i + r.value <= |s| && r.value >= 0 ==>
              InRange(sc, inner, s[i + r.value..], l, sc.keep(m, s[i..i + r.value])))
      else if Head(s) % 8 != sc.kind(num) then true
      else
        LengthInRange(sc.kind(num), s[n..], l) &&
        var r := ReadPayload(sc.kind(num), s[n..], l);
        r.Ok? ==>
          var m' := sc.apply(m, num, r.value.0);
          inner(m, num, r.value.0) && (m'.Ok? ==> InRange(sc, inner, s[n + r.value.1..], l, m'.value))
  }

  /** Then `Unmarshal` returns. */
  lemma InRangeReturns<M(!new)>(sc: Schema<M>, inner: Inner<M>, s: seq<byte>, l: int, m: M, seen: set<int>)
    requires InRange(sc, inner, s, l, m) && Decides(sc, inner)
    ensures !Lost(Decode(sc, s, l, m, seen))
  {
    hide Decides, Decode;
    InRangeFits(sc, inner, s, l, m);
    ReturnsExactly(sc, inner, s, l, m, seen);
  }

  lemma {:induction false} InRangeFits<M>(sc: Schema<M>, inner: Inner<M>, s: seq<byte>, l: int, m: M)
    requires InRange(sc, inner, s, l, m)
    ensures Fits(sc, inner, s, l, m)
    decreases |s|
  {
    hide Head, FieldNum, ReadPayload, Varint.Length, SkipLog, TagStart, Steady, SkipReturns, LengthInRange;
    if s != [] && Varint.Length(s) > 0 {
      var num, n := FieldNum(Head(s)), Varint.Length(s);
      if sc.kind(num) == UNKNOWN {
        var i := TagStart(s);
        SteadyReturns(s[i..]);
        SkipReturnsExactly(s[i..]);
        var r := SkipLog(s[i..]);
        if r.Ok? && i + r.value <= |s| {
          InRangeFits(sc, inner, s[i + r.value..], l, sc.keep(m, s[i..i + r.value]));
        }
      } else if Head(s) % 8 == sc.kind(num) {
        var r := ReadPayload(sc.kind(num), s[n..], l);
        if r.Ok? {
          var m' := sc.apply(m, num, r.value.0);
          if m'.Ok? { InRangeFits(sc, inner, s[n + r.value.1..], l, m'.value); }
        }
      }
    }
  }

  // ---------------------------------------------------------------------------------------------
  // Inputs
  // ---------------------------------------------------------------------------------------------

  lemma TenExactly(v: nat)
    requires TWO_63 <= v < TWO_64
    ensures |Varint.Encode(v)| == 10
  {
    Varint.TenBytes(v);
    Varint.EncodeDecodes(v);
    Varint.ValueBound(Varint.Encode(v));
    var n := |Varint.Encode(v)|;
    hide Varint.Encode, Varint.Value;
    if n <= 9 {
      PowSixtyThree();
      Pow2Grows(7 * n, 63);
    }
  }

  lemma PowSixtyThree()
    ensures Pow2(63) == TWO_63
  {
    Pow2Values();
    assert Pow2(64) == 2 * Pow2(63);
  }

  lemma {:induction false} Pow2Grows(a: nat, b: nat)
    requires a <= b
    ensures Pow2(a) <= Pow2(b)
    decreases b
  {
    if a < b { Pow2Grows(a, b - 1); }
  }

  /** A tag in one byte. */
  lemma OneByteTag(tag: byte, rest: seq<byte>)
    requires tag < 128
    ensures var s := [tag] + rest;
            && Varint.Length(s) == 1 && Head(s) == tag as nat && TagStart(s) == 0
            && FieldNum(tag as nat) == tag as int / 8 && s[1..] == rest && s[0..] == s
  {
    hide *;
    OneByte(tag);
    NumberOfByte(tag as nat);
    HeadOfEncoding(tag as nat, rest);
    TagStartsAt([tag] + rest);
    assert ([tag] + rest)[1..] == rest && ([tag] + rest)[0..] == [tag] + rest;
  }

  lemma OneByte(tag: byte)
    requires tag < 128
    ensures Varint.Encode(tag as nat) == [tag] && tag as nat < TWO_64
  {
  }

  lemma NumberOfByte(v: nat)
    requires v < 128
    ensures FieldNum(v) == v / 8
  {
  }

  lemma TagStartsAt(s: seq<byte>)
    requires Varint.Length(s) > 0
    ensures TagStart(s) == Varint.Length(s) - |Varint.Encode(Head(s))|
  {
  }

  /** What `skipLog` returns for a length-delimited field, whatever its length. */
  lemma SkipsBlob(tag: byte, length: nat, rest: seq<byte>)
    requires tag < 128 && tag as int % 8 == BLOB && length < TWO_64
    ensures SkipLog([tag] + (Varint.Encode(length) + rest)) == Ok(AsInt(1 + |Varint.Encode(length)| + length))
  {
    hide *;
    var s := [tag] + (Varint.Encode(length) + rest);
    OneByteTag(tag, Varint.Encode(length) + rest);
    HeadOfEncoding(length, rest);
    SkipLogIs(s);
    BlobIs(s, 1);
    EncodeNonempty(length);
    BlobIsNoGroup();
  }

  lemma BlobIsNoGroup()
    ensures BLOB != GROUP
  {
  }

  lemma EncodeNonempty(v: nat)
    ensures |Varint.Encode(v)| >= 1
  {
  }

  lemma BlobIs(s: seq<byte>, n: nat)
    requires n <= |s|
    ensures SkipFlat(BLOB, s, n) == if Varint.Length(s[n..]) == 0 then Fail(Truncated)
                                    else Ok(AsInt(n + Varint.Length(s[n..]) + Head(s[n..])))
  {
    hide Head, Varint.Length, AsInt;
  }

  /** A length of 2^63 or more in an unknown field: by its last eleven values the decoder steps back into the
      field's own tag and length and goes on there, or stays where it is forever, and with all others it
      panics. */
  lemma UnknownBlobOutOfRange<M>(
    sc: Schema<M>, tag: byte, length: nat, rest: seq<byte>, l: int, m: M, seen: set<int>)
    requires tag < 128 && tag as int % 8 == BLOB && sc.kind(tag as int / 8) == UNKNOWN
    requires TWO_63 <= length < TWO_64 && 11 + |rest| <= l < TWO_63
    ensures var s := [tag] + (Varint.Encode(length) + rest);
            var v := 11 + length - TWO_64;
            && |s| == 11 + |rest|
            && Decode(sc, s, l, m, seen) ==
                 if v < 0 then Fail(Crash)
                 else if v == 0 then Fail(Stuck)
                 else Decode(sc, s[v..], l, sc.keep(m, s[..v]), seen)
  {
    hide *;
    TenExactly(length);
    SkipsBlob(tag, length, rest);
    OneByteTag(tag, Varint.Encode(length) + rest);
    var s := [tag] + (Varint.Encode(length) + rest);
    var v := 11 + length - TWO_64;
    WrapsTo(length);
    PassedInside(v, s, l);
    DecodeUnknownRound(sc, s, l, m, seen);
    if v > 0 { assert s[0..v] == s[..v]; }
  }

  lemma WrapsTo(length: nat)
    requires TWO_63 <= length < TWO_64
    ensures AsInt(11 + length) == 11 + length - TWO_64 <= 10
  {
  }

  lemma PassedInside(v: int, s: seq<byte>, l: int)
    requires v <= |s| <= l < TWO_63
    ensures Passed(Ok(v), 0, s, l) == if v < 0 then Fail(Crash) else if v == 0 then Fail(Stuck) else Ok(v)
  {
  }

  /** In a known field it always panics. */
  lemma KnownBlobOutOfRange<M>(
    sc: Schema<M>, tag: byte, length: nat, rest: seq<byte>, l: int, m: M, seen: set<int>)
    requires tag < 128 && tag as int % 8 == BLOB && sc.kind(tag as int / 8) == BLOB
    requires TWO_63 <= length < TWO_64 && 11 + |rest| <= l < TWO_63
    ensures Decode(sc, [tag] + (Varint.Encode(length) + rest), l, m, seen) == Fail(Crash)
  {
    TenExactly(length);
    OneByteTag(tag, Varint.Encode(length) + rest);
    HeadOfEncoding(length, rest);
    var s := [tag] + (Varint.Encode(length) + rest);
    hide Varint.Encode, SkipLog, Head, Varint.Length, FieldNum, TagStart, Decode;
    DecodeRound(sc, s, l, m, seen);
    assert ReadPayload(BLOB, s[1..], l) == Fail(Crash);
  }

  lemma EncodeStep(v: nat)
    requires v >= 128
    ensures Varint.Encode(v) == [(128 + v % 128) as byte] + Varint.Encode(v / 128)
  {
  }

  lemma MinusEleven()
    ensures Varint.Encode(TWO_64 - 11) == [0xf5, 0xff, 0xff, 0xff, 0xff, 0xff, 0xff, 0xff, 0xff, 0x01]
  {
    assert Varint.Encode(1) == [0x01];
    hide Varint.Encode;
    EncodeStep(0xff);
    EncodeStep(0x7fff);
    EncodeStep(0x3f_ffff);
    EncodeStep(0x1fff_ffff);
    EncodeStep(0xf_ffff_ffff);
    EncodeStep(0x7ff_ffff_ffff);
    EncodeStep(0x3_ffff_ffff_ffff);
    EncodeStep(0x1ff_ffff_ffff_ffff);
    EncodeStep(TWO_64 - 11);
  }

  /** The bytes `3a f5 ff ff ff ff ff ff ff ff 01`, a field of number 7 with length -11, hang `Unmarshal` of a
      message, whatever follows. */
  lemma HangingMessage(rest: seq<byte>, m: Message)
    requires |rest| < TWO_63 - 11
    ensures var s := [0x3a] + ([0xf5, 0xff, 0xff, 0xff, 0xff, 0xff, 0xff, 0xff, 0xff, 0x01] + rest);
            Decode(MessageSchema(), s, |s|, m, {}) == Fail(Stuck)
  {
    MinusEleven();
    TenExactly(TWO_64 - 11);
    hide Decode, Varint.Encode;
    assert MessageSchema().kind(7) == UNKNOWN;
    UnknownBlobOutOfRange(MessageSchema(), 0x3a, TWO_64 - 11, rest, 11 + |rest|, m, {});
  }

  /** The same field inside a group hangs `skipLog` itself. */
  lemma HangingGroup(rest: seq<byte>)
    ensures var s := [0x3b, 0x3a] + ([0xf5, 0xff, 0xff, 0xff, 0xff, 0xff, 0xff, 0xff, 0xff, 0x01] + rest);
            SkipLog(s) == Fail(Stuck)
  {
    MinusEleven();
    var field := [0x3a] + (Varint.Encode(TWO_64 - 11) + rest);
    var s := [0x3b] + field;
    assert s == [0x3b, 0x3a] + (Varint.Encode(TWO_64 - 11) + rest);
    TenExactly(TWO_64 - 11);
    SkipsBlob(0x3a, TWO_64 - 11, rest);
    OneByteTag(0x3a, Varint.Encode(TWO_64 - 11) + rest);
    OneByteTag(0x3b, field);
    assert AsInt(TWO_64) == 0 && AsInt(1) == 1;
    hide Varint.Encode, SkipLog, SkipGroup, Head, Varint.Length, AsInt;
    SkipLogIs(s);
    SkipGroupIs(s, 1, {});
    SkipGroupIs(s, 1, {} + {1});
  }

  /** A session of 2^63 bytes or more makes `Unmarshal` of a message panic. */
  lemma CrashingMessage(length: nat, rest: seq<byte>, m: Message)
    requires TWO_63 <= length < TWO_64 && |rest| < TWO_63 - 11
    ensures var s := [0x22] + (Varint.Encode(length) + rest);
            |s| == 11 + |rest| && Decode(MessageSchema(), s, |s|, m, {}) == Fail(Crash)
  {
    TenExactly(length);
    hide Decode, Varint.Encode;
    assert MessageSchema().kind(4) == BLOB;
    KnownBlobOutOfRange(MessageSchema(), 0x22, length, rest, 11 + |rest|, m, {});
  }
}
