/** A grammar of wire-format fields, independent of the decoder, and what the decoder makes of it:
    `skipLog` recognises its fields, and nothing else as long as the lengths are in range, and unknown fields
    are kept byte for byte. */
module WireFields {

  import opened Bits
  import opened Wire
  import Varint
  import Seqs

  /** A field as it stands on the wire.  Tags and lengths are any varints, shortest or not; a group holds
      fields and ends with a tag of the end-group type. */
  datatype Field = Field(tag: seq<byte>, body: Body)

  datatype Body =
    | Digits(digits: seq<byte>)
    | Fix64(bytes: seq<byte>)
    | Blob(len: seq<byte>, bytes: seq<byte>)
    | Group(fields: seq<Field>, end: seq<byte>)
    | Fix32(bytes: seq<byte>)

  function BodyKind(b: Body): int {
    match b
    case Digits(_) => VARINT
    case Fix64(_) => FIXED64
    case Blob(_, _) => BLOB
    case Group(_, _) => GROUP
    case Fix32(_) => FIXED32
  }

  function FieldBytes(f: Field): seq<byte>
    decreases f, 1
  {
    f.tag + BodyBytes(f.body)
  }

  function BodyBytes(b: Body): seq<byte>
    decreases b, 0
  {
    match b
    case Digits(digits) => digits
    case Fix64(bytes) => bytes
    case Blob(len, bytes) => len + bytes
    case Group(fields, end) => FieldsBytes(fields) + end
    case Fix32(bytes) => bytes
  }

  function FieldsBytes(fs: seq<Field>): seq<byte>
    decreases fs, 0
  {
    if fs == [] then [] else FieldBytes(fs[0]) + FieldsBytes(fs[1..])
  }

  predicate WellFormed(f: Field)
    decreases f, 1
  {
    Varint.IsVarint(f.tag) && Head(f.tag) % 8 == BodyKind(f.body) && WellFormedBody(f.body)
  }

  predicate WellFormedBody(b: Body)
    decreases b, 0
  {
    match b
    case Digits(digits) => Varint.IsVarint(digits)
    case Fix64(bytes) => |bytes| == 8
    case Blob(len, bytes) => Varint.IsVarint(len) && Head(len) == |bytes|
    case Group(fields, end) => AllWellFormed(fields) && Varint.IsVarint(end) && Head(end) % 8 == END_GROUP
    case Fix32(bytes) => |bytes| == 4
  }

  predicate AllWellFormed(fs: seq<Field>)
    decreases fs, 0
  {
    fs == [] || (WellFormed(fs[0]) && AllWellFormed(fs[1..]))
  }

  // ---------------------------------------------------------------------------------------------
  // skipLog accepts every well-formed field ...
  // ---------------------------------------------------------------------------------------------

  lemma TagSplit(tag: seq<byte>, after: seq<byte>)
    requires Varint.IsVarint(tag)
    ensures Varint.Length(tag + after) == |tag| && Head(tag + after) == Head(tag)
    ensures (tag + after)[|tag|..] == after
  {
    HeadOfVarint(tag, after);
  }

  lemma SkipsFlat(tag: seq<byte>, b: Body, rest: seq<byte>)
    requires WellFormedBody(b) && !b.Group? && |tag| + |BodyBytes(b)| < TWO_63
    ensures SkipFlat(BodyKind(b), tag + (BodyBytes(b) + rest), |tag|) == Ok(|tag| + |BodyBytes(b)|)
  {
    assert (tag + (BodyBytes(b) + rest))[|tag|..] == BodyBytes(b) + rest;
    match b
    case Digits(digits) => HeadOfVarint(digits, rest);
    case Fix64(_) =>
    case Blob(len, bytes) =>
      assert BodyBytes(b) + rest == len + (bytes + rest);
      HeadOfVarint(len, bytes + rest);
    case Fix32(_) =>
  }

  lemma GroupParts(b: Body)
    requires b.Group? && WellFormedBody(b)
    ensures AllWellFormed(b.fields) && Varint.IsVarint(b.end) && Head(b.end) % 8 == END_GROUP
    ensures BodyBytes(b) == FieldsBytes(b.fields) + b.end && BodyKind(b) == GROUP
    ensures |BodyBytes(b)| == |FieldsBytes(b.fields)| + |b.end|
  {
  }

  lemma FieldParts(f: Field)
    requires WellFormed(f)
    ensures Varint.IsVarint(f.tag) && Head(f.tag) % 8 == BodyKind(f.body) && WellFormedBody(f.body)
    ensures FieldBytes(f) == f.tag + BodyBytes(f.body) && f.tag != []
    ensures |FieldBytes(f)| == |f.tag| + |BodyBytes(f.body)| >= 1
    ensures BodyKind(f.body) != END_GROUP && (BodyKind(f.body) == GROUP <==> f.body.Group?)
  {
  }

  lemma FieldsNil()
    ensures AllWellFormed([]) && FieldsBytes([]) == [] && forall s :: FieldsBytes([]) + s == s
  {
  }

  lemma FieldsParts(fs: seq<Field>)
    requires fs != [] && AllWellFormed(fs)
    ensures WellFormed(fs[0]) && AllWellFormed(fs[1..])
    ensures FieldsBytes(fs) == FieldBytes(fs[0]) + FieldsBytes(fs[1..])
    ensures |FieldsBytes(fs)| == |FieldBytes(fs[0])| + |FieldsBytes(fs[1..])|
  {
  }

  /** `skipLog` returns exactly the length of a well-formed field, whatever follows it, with groups nested
      to any depth. */
  lemma {:induction false} SkipsField(f: Field, rest: seq<byte>)
    requires WellFormed(f) && |FieldBytes(f)| < TWO_63
    ensures SkipLog(FieldBytes(f) + rest) == Ok(|FieldBytes(f)|)
    decreases |FieldBytes(f)|, 0
  {
    hide *;
    FieldParts(f);
    var body := BodyBytes(f.body);
    var s := f.tag + (body + rest);
    Seqs.Assoc(f.tag, body, rest);
    TagSplit(f.tag, body + rest);
    SkipLogIs(s);
    if f.body.Group? {
      GroupParts(f.body);
      Seqs.Assoc(FieldsBytes(f.body.fields), f.body.end, rest);
      NothingBefore(|f.tag|);
      SkipsGroup(s, |f.tag|, {}, f.body.fields, f.body.end, rest);
    } else {
      SkipsFlat(f.tag, f.body, rest);
    }
  }

  lemma SkipLogIs(s: seq<byte>)
    requires s != [] && Varint.Length(s) > 0
    ensures SkipLog(s) == if Head(s) % 8 == GROUP then SkipGroup(s, Varint.Length(s), {})
                          else SkipFlat(Head(s) % 8, s, Varint.Length(s))
  {
    hide Head, Varint.Length, SkipGroup, SkipFlat;
  }

  lemma SkipGroupEnds(s: seq<byte>, i: nat, visited: set<int>, end: seq<byte>, rest: seq<byte>)
    requires 1 <= i <= |s| && s[i..] == end + rest
    requires Varint.IsVarint(end) && Head(end) % 8 == END_GROUP
    ensures SkipGroup(s, i, visited) == Ok(i + |end|)
  {
    HeadOfVarint(end, rest);
    hide Head, Varint.Length, SkipLog;
  }

  lemma SkipGroupStep(s: seq<byte>, i: nat, visited: set<int>, k: nat)
    requires 1 <= i < |s| && i !in visited && SkipLog(s[i..]) == Ok(k) && i + k < TWO_63
    requires Varint.Length(s[i..]) > 0 && Head(s[i..]) % 8 != END_GROUP
    ensures SkipGroup(s, i, visited) == SkipGroup(s, i + k, visited + {i})
  {
    hide Head, Varint.Length, SkipLog;
  }

  /** All positions of the walk so far lie before `i`. */
  predicate Before(visited: set<int>, i: int) {
    forall p | p in visited :: p < i
  }

  /** The inner loop passes over the fields of a group, up to its end tag. */
  lemma {:induction false} SkipsGroup(
    s: seq<byte>, i: nat, visited: set<int>, fs: seq<Field>, end: seq<byte>, rest: seq<byte>)
    requires 1 <= i <= |s| && Before(visited, i) && s[i..] == FieldsBytes(fs) + (end + rest)
    requires AllWellFormed(fs) && Varint.IsVarint(end) && Head(end) % 8 == END_GROUP
    requires i + |FieldsBytes(fs)| + |end| < TWO_63
    ensures SkipGroup(s, i, visited) == Ok(i + |FieldsBytes(fs)| + |end|)
    decreases |FieldsBytes(fs)|, 2
  {
    hide *;
    if fs == [] {
      FieldsNil();
      SkipGroupEnds(s, i, visited, end, rest);
    } else {
      FieldsParts(fs);
      FieldParts(fs[0]);
      var f, k := fs[0], |FieldBytes(fs[0])|;
      var after := FieldsBytes(fs[1..]) + (end + rest);
      Seqs.Assoc(FieldBytes(f), FieldsBytes(fs[1..]), end + rest);
      Seqs.DropAppend(s, i, FieldBytes(f), after);
      SkipsGroupStep(s, i, visited, f, after);
      BeforeNext(visited, i, k);
      SkipsGroup(s, i + k, visited + {i}, fs[1..], end, rest);
    }
  }

  lemma BeforeNext(visited: set<int>, i: nat, k: nat)
    requires Before(visited, i) && k >= 1
    ensures Before(visited + {i}, i + k) && i !in visited
  {
  }

  lemma {:induction false} SkipsGroupStep(s: seq<byte>, i: nat, visited: set<int>, f: Field, after: seq<byte>)
    requires 1 <= i < |s| && Before(visited, i) && s[i..] == FieldBytes(f) + after && WellFormed(f)
    requires i + |FieldBytes(f)| < TWO_63
    ensures SkipGroup(s, i, visited) == SkipGroup(s, i + |FieldBytes(f)|, visited + {i})
    decreases |FieldBytes(f)|, 1
  {
    hide *;
    FieldParts(f);
    SkipsField(f, after);
    Seqs.Assoc(f.tag, BodyBytes(f.body), after);
    TagSplit(f.tag, BodyBytes(f.body) + after);
    BeforeNext(visited, i, 1);
    SkipGroupStep(s, i, visited, |FieldBytes(f)|);
  }

  // ---------------------------------------------------------------------------------------------
  // ... and nothing else, as long as the lengths are in range
  // ---------------------------------------------------------------------------------------------

  /** Every length that `skipLog(s)` reads is below 2^63 minus the position behind it. */
  predicate Steady(s: seq<byte>)
    requires s != []
    decreases |s|, 1, 0
  {
    var n := Varint.Length(s);
    if n == 0 then true
    else if Head(s) % 8 == GROUP then SteadyGroup(s, n)
    else if Head(s) % 8 == BLOB then n + Varint.Length(s[n..]) + Head(s[n..]) < TWO_63
    else true
  }

  predicate SteadyGroup(s: seq<byte>, i: int)
    decreases |s|, 0, |s| - i
  {
    1 <= i < |s| && Varint.Length(s[i..]) > 0 && Head(s[i..]) % 8 != END_GROUP ==>
      && Steady(s[i..])
      && (SkipLog(s[i..]).Ok? && SkipLog(s[i..]).value > 0 ==>
            i + SkipLog(s[i..]).value < TWO_63 && SteadyGroup(s, i + SkipLog(s[i..]).value))
  }

  lemma SteadyIs(s: seq<byte>)
    requires s != [] && Varint.Length(s) > 0 && Steady(s)
    ensures Head(s) % 8 == GROUP ==> SteadyGroup(s, Varint.Length(s))
    ensures var n := Varint.Length(s);
            Head(s) % 8 == BLOB ==> n + Varint.Length(s[n..]) + Head(s[n..]) < TWO_63
  {
    hide Head, Varint.Length, SteadyGroup;
  }

  lemma SteadyGroupIs(s: seq<byte>, i: int)
    requires 1 <= i < |s| && Varint.Length(s[i..]) > 0 && Head(s[i..]) % 8 != END_GROUP && SteadyGroup(s, i)
    ensures Steady(s[i..])
    ensures SkipLog(s[i..]).Ok? && SkipLog(s[i..]).value > 0 ==>
              i + SkipLog(s[i..]).value < TWO_63 && SteadyGroup(s, i + SkipLog(s[i..]).value)
  {
    hide Head, Varint.Length, SkipLog, Steady;
  }

  /** An outcome that the source does not return. */
  predicate Lost<T>(r: Result<T>) {
    r.Fail? && (r.error == Stuck || r.error == Crash)
  }

  lemma FlatReturns(kind: int, s: seq<byte>, n: nat)
    requires 1 <= n <= |s|
    requires kind == BLOB ==> n + Varint.Length(s[n..]) + Head(s[n..]) < TWO_63
    ensures var r := SkipFlat(kind, s, n); !Lost(r) && (r.Ok? ==> r.value >= n)
  {
    hide Head, Varint.Length;
  }

  /** Then `skipLog` returns, and moves forward. */
  lemma {:induction false} SteadyReturns(s: seq<byte>)
    requires s != [] && Steady(s)
    ensures !Lost(SkipLog(s)) && (SkipLog(s).Ok? ==> SkipLog(s).value >= 1)
    decreases |s|, 1, 0
  {
    hide *;
    var n := Varint.Length(s);
    if n == 0 {
      NoTagFails(s);
    } else {
      LengthFits(s);
      SkipLogIs(s);
      SteadyIs(s);
      if Head(s) % 8 == GROUP {
        NothingBefore(n);
        SteadyGroupReturns(s, n, {});
      } else {
        FlatReturns(Head(s) % 8, s, n);
      }
    }
  }

  lemma NoTagFails(s: seq<byte>)
    requires s != [] && Varint.Length(s) == 0
    ensures SkipLog(s) == Fail(Truncated) && !Lost(SkipLog(s))
  {
  }

  lemma LengthFits(s: seq<byte>)
    ensures Varint.Length(s) <= |s|
  {
  }

  lemma NothingBefore(i: int)
    ensures Before({}, i)
  {
  }

  lemma {:induction false} SteadyGroupReturns(s: seq<byte>, i: nat, visited: set<int>)
    requires 1 <= i && Before(visited, i) && SteadyGroup(s, i)
    ensures !Lost(SkipGroup(s, i, visited))
    ensures SkipGroup(s, i, visited).Ok? ==> SkipGroup(s, i, visited).value >= i
    decreases |s|, 0, |s| - i
  {
    hide *;
    SkipGroupIs(s, i, visited);
    if i < |s| && Varint.Length(s[i..]) > 0 && Head(s[i..]) % 8 != END_GROUP {
      SteadyGroupIs(s, i);
      SteadyReturns(s[i..]);
      BeforeNext(visited, i, 1);
      if SkipLog(s[i..]).Ok? {
        BeforeNext(visited, i, SkipLog(s[i..]).value);
        AsIntIs(i + SkipLog(s[i..]).value);
        SteadyGroupReturns(s, i + SkipLog(s[i..]).value, visited + {i});
      }
    }
    ReturnedIs();
  }

  lemma AsIntIs(v: int)
    requires 0 <= v < TWO_63
    ensures AsInt(v) == v
  {
  }

  lemma ReturnedIs()
    ensures !Lost<int>(Fail(Truncated)) && forall v: int :: !Lost(Ok(v))
    ensures forall e :: Lost<int>(Fail(e)) <==> e == Stuck || e == Crash
  {
  }

  /** The cases of one round of the inner loop. */
  lemma SkipGroupIs(s: seq<byte>, i: nat, visited: set<int>)
    requires i >= 1
    ensures i >= |s| ==> SkipGroup(s, i, visited) == Fail(Truncated)
    ensures i < |s| && Varint.Length(s[i..]) == 0 ==> SkipGroup(s, i, visited) == Fail(Truncated)
    ensures i < |s| && Varint.Length(s[i..]) > 0 && Head(s[i..]) % 8 == END_GROUP ==>
      SkipGroup(s, i, visited) == Ok(i + Varint.Length(s[i..]))
    ensures i < |s| && Varint.Length(s[i..]) > 0 && Head(s[i..]) % 8 != END_GROUP ==>
      && (i in visited ==> SkipGroup(s, i, visited) == Fail(Stuck))
      && (i !in visited && SkipLog(s[i..]).Fail? ==> SkipGroup(s, i, visited) == SkipLog(s[i..]))
      && (i !in visited && SkipLog(s[i..]).Ok? ==>
            SkipGroup(s, i, visited) == SkipGroup(s, AsInt(i + SkipLog(s[i..]).value), visited + {i}))
  {
    hide Head, Varint.Length, SkipLog, AsInt;
  }

  lemma TakeVarint(s: seq<byte>)
    requires Varint.Length(s) > 0
    ensures Varint.IsVarint(s[..Varint.Length(s)]) && Head(s[..Varint.Length(s)]) == Head(s)
  {
    Varint.LengthOfPrefix(s);
    hide Varint.Length;
    var n := Varint.Length(s);
    assert s[..n][..n] == s[..n];
  }

  lemma FlatIsBody(kind: int, s: seq<byte>, n: nat) returns (b: Body)
    requires n <= |s| && kind != END_GROUP && SkipFlat(kind, s, n).Ok? && SkipFlat(kind, s, n).value <= |s|
    requires kind == BLOB ==> n + Varint.Length(s[n..]) + Head(s[n..]) < TWO_63
    ensures WellFormedBody(b) && BodyKind(b) == kind && n <= SkipFlat(kind, s, n).value
    ensures BodyBytes(b) == s[n..SkipFlat(kind, s, n).value]
  {
    hide Head, Varint.Length;
    var t := s[n..];
    var k := Varint.Length(t);
    if kind == VARINT {
      TakeVarint(t);
      b := Digits(t[..k]);
    } else if kind == FIXED64 {
      b := Fix64(t[..8]);
    } else if kind == BLOB {
      TakeVarint(t);
      b := Blob(t[..k], t[k..k + Head(t)]);
      Seqs.Split(t, 0, k, k + Head(t));
    } else {
      b := Fix32(t[..4]);
    }
  }

  /** If `skipLog` accepts input that starts with anything but an end-group tag, the length it returns lies
      within the input, and the lengths it reads are in range, then these bytes are one well-formed field. */
  lemma {:induction false} SkippedIsField(s: seq<byte>) returns (f: Field)
    requires s != [] && SkipLog(s).Ok? && SkipLog(s).value <= |s| && Head(s) % 8 != END_GROUP
    requires Steady(s)
    ensures SkipLog(s).value >= 1 && WellFormed(f) && FieldBytes(f) == s[..SkipLog(s).value]
    decreases |s|, 1, 0
  {
    hide *;
    AcceptedHasTag(s);
    SteadyReturns(s);
    var n := Varint.Length(s);
    LengthFits(s);
    TakeVarint(s);
    SkipLogIs(s);
    SteadyIs(s);
    var body: Body;
    if Head(s) % 8 == GROUP {
      NothingBefore(n);
      SteadyGroupReturns(s, n, {});
      var fs, end := SkippedIsGroup(s, n, {});
      body := Group(fs, end);
      GroupIs(fs, end);
    } else {
      body := FlatIsBody(Head(s) % 8, s, n);
    }
    f := Field(s[..n], body);
    FieldIs(f);
    Seqs.Split(s, 0, n, SkipLog(s).value);
  }

  lemma AcceptedHasTag(s: seq<byte>)
    requires s != [] && SkipLog(s).Ok?
    ensures Varint.Length(s) > 0
  {
  }

  lemma GroupIs(fs: seq<Field>, end: seq<byte>)
    requires AllWellFormed(fs) && Varint.IsVarint(end) && Head(end) % 8 == END_GROUP
    ensures var b := Group(fs, end);
            WellFormedBody(b) && BodyKind(b) == GROUP && BodyBytes(b) == FieldsBytes(fs) + end
  {
  }

  lemma FieldIs(f: Field)
    requires Varint.IsVarint(f.tag) && Head(f.tag) % 8 == BodyKind(f.body) && WellFormedBody(f.body)
    ensures WellFormed(f) && FieldBytes(f) == f.tag + BodyBytes(f.body)
  {
  }

  lemma {:induction false} SkippedIsGroup(s: seq<byte>, i: nat, visited: set<int>)
    returns (fs: seq<Field>, end: seq<byte>)
    requires 1 <= i <= |s| && Before(visited, i) && SteadyGroup(s, i)
    requires SkipGroup(s, i, visited).Ok? && i <= SkipGroup(s, i, visited).value <= |s|
    ensures AllWellFormed(fs) && Varint.IsVarint(end) && Head(end) % 8 == END_GROUP
    ensures FieldsBytes(fs) + end == s[i..SkipGroup(s, i, visited).value]
    decreases |s|, 0, |s| - i
  {
    hide *;
    var n, total := Varint.Length(s[i..]), SkipGroup(s, i, visited).value;
    SkipGroupIs(s, i, visited);
    LengthFits(s[i..]);
    TakeVarint(s[i..]);
    if Head(s[i..]) % 8 == END_GROUP {
      fs, end := [], s[i..][..n];
      FieldsNil();
      Seqs.Split(s, i, i + n, |s|);
    } else {
      var k := SkipLog(s[i..]).value;
      SteadyGroupIs(s, i);
      SteadyReturns(s[i..]);
      AsIntIs(i + k);
      BeforeNext(visited, i, k);
      SteadyGroupReturns(s, i + k, visited + {i});
      var f := SkippedIsField(s[i..]);
      var tail;
      tail, end := SkippedIsGroup(s, i + k, visited + {i});
      fs := [f] + tail;
      assert fs[1..] == tail;
      FieldsCons(fs);
      Seqs.Split(s, i, i + k, total);
      Seqs.Assoc(FieldBytes(f), FieldsBytes(tail), end);
      Seqs.Split(s, i, i + k, |s|);
    }
  }

  lemma FieldsCons(fs: seq<Field>)
    requires fs != [] && WellFormed(fs[0]) && AllWellFormed(fs[1..])
    ensures AllWellFormed(fs) && FieldsBytes(fs) == FieldBytes(fs[0]) + FieldsBytes(fs[1..])
  {
  }

  // ---------------------------------------------------------------------------------------------
  // Exactly then
  // ---------------------------------------------------------------------------------------------

  lemma FlatIsSteady(tag: seq<byte>, b: Body, rest: seq<byte>)
    requires Varint.IsVarint(tag) && Head(tag) % 8 == BodyKind(b) && WellFormedBody(b) && !b.Group?
    requires |tag| + |BodyBytes(b)| < TWO_63
    ensures Steady(tag + (BodyBytes(b) + rest))
  {
    TagSplit(tag, BodyBytes(b) + rest);
    if b.Blob? {
      assert BodyBytes(b) + rest == b.len + (b.bytes + rest);
      HeadOfVarint(b.len, b.bytes + rest);
    }
    hide Head, Varint.Length, SteadyGroup, SkipLog;
  }

  lemma GroupIsSteady(s: seq<byte>)
    requires s != [] && Varint.Length(s) > 0 && Head(s) % 8 == GROUP && SteadyGroup(s, Varint.Length(s))
    ensures Steady(s)
  {
    hide Head, Varint.Length, SteadyGroup;
  }

  lemma {:induction false} FieldIsSteady(f: Field, rest: seq<byte>)
    requires WellFormed(f) && |FieldBytes(f)| < TWO_63
    ensures FieldBytes(f) + rest != [] && Steady(FieldBytes(f) + rest)
    decreases |FieldBytes(f)|, 0
  {
    hide *;
    FieldParts(f);
    var body := BodyBytes(f.body);
    var s := f.tag + (body + rest);
    Seqs.Assoc(f.tag, body, rest);
    TagSplit(f.tag, body + rest);
    if f.body.Group? {
      GroupParts(f.body);
      Seqs.Assoc(FieldsBytes(f.body.fields), f.body.end, rest);
      FieldsAreSteady(s, |f.tag|, f.body.fields, f.body.end, rest);
      GroupIsSteady(s);
    } else {
      FlatIsSteady(f.tag, f.body, rest);
    }
  }

  lemma SteadyEnd(s: seq<byte>, i: nat)
    requires i < |s| && Head(s[i..]) % 8 == END_GROUP
    ensures SteadyGroup(s, i)
  {
    hide Head, Varint.Length, SkipLog, Steady;
  }

  lemma SteadyNext(s: seq<byte>, i: nat, k: nat)
    requires 1 <= i < |s| && Steady(s[i..]) && SkipLog(s[i..]) == Ok(k) && i + k < TWO_63 && SteadyGroup(s, i + k)
    ensures SteadyGroup(s, i)
  {
    hide Head, Varint.Length, SkipLog, Steady;
  }

  lemma {:induction false} FieldsAreSteady(s: seq<byte>, i: nat, fs: seq<Field>, end: seq<byte>, rest: seq<byte>)
    requires 1 <= i <= |s| && s[i..] == FieldsBytes(fs) + (end + rest)
    requires AllWellFormed(fs) && Varint.IsVarint(end) && Head(end) % 8 == END_GROUP
    requires i + |FieldsBytes(fs)| + |end| < TWO_63
    ensures SteadyGroup(s, i)
    decreases |FieldsBytes(fs)|, 2
  {
    hide *;
    if fs == [] {
      FieldsNil();
      TagSplit(end, rest);
      NotNothing(end);
      SteadyEnd(s, i);
    } else {
      FieldsParts(fs);
      FieldParts(fs[0]);
      var f, k := fs[0], |FieldBytes(fs[0])|;
      var after := FieldsBytes(fs[1..]) + (end + rest);
      Seqs.Assoc(FieldBytes(f), FieldsBytes(fs[1..]), end + rest);
      Seqs.DropAppend(s, i, FieldBytes(f), after);
      FieldIsSteady(f, after);
      SkipsField(f, after);
      FieldsAreSteady(s, i + k, fs[1..], end, rest);
      SteadyNext(s, i, k);
    }
  }

  lemma NotNothing(end: seq<byte>)
    requires Varint.IsVarint(end)
    ensures |end| >= 1
  {
  }

  /** What `skipLog` passes over within the input is a well-formed field if and only if every length it read
      on the way is below 2^63 minus its position. */
  lemma SkippedExactly(s: seq<byte>)
    requires s != [] && SkipLog(s).Ok? && 1 <= SkipLog(s).value <= |s| < TWO_63 && Head(s) % 8 != END_GROUP
    ensures Steady(s) <==> exists f :: WellFormed(f) && FieldBytes(f) == s[..SkipLog(s).value]
  {
    hide *;
    var k := SkipLog(s).value;
    if Steady(s) {
      var f := SkippedIsField(s);
    }
    if f :| WellFormed(f) && FieldBytes(f) == s[..k] {
      Seqs.Split(s, 0, k, |s|);
      FieldIsSteady(f, s[k..]);
      assert s == s[..k] + s[k..];
    }
  }

  // ---------------------------------------------------------------------------------------------
  // Unknown fields are kept
  // ---------------------------------------------------------------------------------------------

  /** `f` carries a number the message type does not have, in a tag of shortest form. */
  predicate Foreign<M>(sc: Schema<M>, f: Field) {
    Minimal(f) && sc.kind(FieldNum(Head(f.tag))) == UNKNOWN
  }

  /** A well-formed field whose tag is as short as possible, as every standard encoder writes it. */
  predicate Minimal(f: Field) {
    WellFormed(f) && f.tag == Varint.Encode(Head(f.tag)) && |FieldBytes(f)| < TWO_63
  }

  /** The laws of `keep`, `unknown` and `apply` that the message types satisfy. */
  ghost predicate Lawful<M(!new)>(sc: Schema<M>) {
    && (forall m, b :: sc.unknown(sc.keep(m, b)) == sc.unknown(m) + b)
    && (forall m, num, p :: sc.apply(m, num, p).Ok? ==> sc.unknown(sc.apply(m, num, p).value) == sc.unknown(m))
    && (forall m, a, b :: sc.keep(sc.keep(m, a), b) == sc.keep(m, a + b))
    && (forall m :: sc.keep(m, []) == m)
    && (forall m, num, p, b :: sc.apply(sc.keep(m, b), num, p) == Keeping(sc, sc.apply(m, num, p), b))
    && (forall num :: sc.kind(num) in {UNKNOWN, VARINT, FIXED64, BLOB})
  }

  /** The result `r` with the unknown bytes `b` added. */
  function Keeping<M>(sc: Schema<M>, r: Result<M>, b: seq<byte>): Result<M> {
    if r.Fail? then r else Ok(sc.keep(r.value, b))
  }

  lemma DecodeForeign<M>(sc: Schema<M>, f: Field, rest: seq<byte>, l: int, m: M, seen: set<int>)
    requires Foreign(sc, f) && l - |rest| < TWO_63
    ensures Decode(sc, FieldBytes(f) + rest, l, m, seen) == Decode(sc, rest, l, sc.keep(m, FieldBytes(f)), seen)
  {
    SkipsField(f, rest);
    hide Head, Varint.Length, SkipLog, BodyBytes, Varint.Encode, WellFormedBody, FieldNum, ReadPayload, Decode;
    var s := FieldBytes(f) + rest;
    Seqs.Assoc(f.tag, BodyBytes(f.body), rest);
    TagSplit(f.tag, BodyBytes(f.body) + rest);
    assert TagStart(s) == 0 && s[0..] == s;
    DecodeUnknownRound(sc, s, l, m, seen);
    Seqs.DropAppend(s, 0, FieldBytes(f), rest);
    assert s[..|FieldBytes(f)|] == FieldBytes(f);
  }

  /** Foreign fields at the end of a message are kept as they are. */
  lemma {:induction false} DecodeForeigners<M(!new)>(sc: Schema<M>, fs: seq<Field>, l: int, m: M, seen: set<int>)
    requires Lawful(sc) && (forall f | f in fs :: Foreign(sc, f)) && l < TWO_63
    ensures Decode(sc, FieldsBytes(fs), l, m, seen) == Finish(sc.required, sc.keep(m, FieldsBytes(fs)), seen)
    decreases |fs|
  {
    if fs != [] {
      DecodeForeign(sc, fs[0], FieldsBytes(fs[1..]), l, m, seen);
      DecodeForeigners(sc, fs[1..], l, sc.keep(m, FieldBytes(fs[0])), seen);
    }
  }

  /** The bytes of the foreign fields among `fs`, in order. */
  function ForeignBytes<M>(sc: Schema<M>, fs: seq<Field>): seq<byte> {
    if fs == [] then []
    else (if Foreign(sc, fs[0]) then FieldBytes(fs[0]) else []) + ForeignBytes(sc, fs[1..])
  }

  /** The other fields among `fs`, in order. */
  function Familiar<M>(sc: Schema<M>, fs: seq<Field>): seq<Field> {
    if fs == [] then []
    else (if Foreign(sc, fs[0]) then [] else [fs[0]]) + Familiar(sc, fs[1..])
  }

  /** What the decoder reads of a body. */
  function PayloadOf(b: Body): Payload {
    match b
    case Digits(digits) => Number(Head(digits))
    case Fix64(bytes) => Number(LittleEndian(bytes))
    case Blob(_, bytes) => Bytes(bytes)
    case _ => Bytes([])
  }

  lemma BlobReads(len: seq<byte>, bytes: seq<byte>, rest: seq<byte>, l: int)
    requires Varint.IsVarint(len) && Head(len) == |bytes| && l - |rest| < TWO_63
    ensures ReadPayload(BLOB, len + bytes + rest, l) == Ok((Bytes(bytes), |len| + |bytes|))
  {
    Seqs.Assoc(len, bytes, rest);
    HeadOfVarint(len, bytes + rest);
    hide Head, Varint.Length;
    assert (len + (bytes + rest))[|len|..|len| + |bytes|] == bytes;
  }

  lemma PayloadReads(b: Body, rest: seq<byte>, l: int)
    requires WellFormedBody(b) && (b.Digits? || b.Fix64? || b.Blob?) && l - |rest| < TWO_63
    ensures ReadPayload(BodyKind(b), BodyBytes(b) + rest, l) == Ok((PayloadOf(b), |BodyBytes(b)|))
  {
    match b
    case Digits(digits) => HeadOfVarint(digits, rest);
    case Fix64(bytes) => assert (bytes + rest)[..8] == bytes;
    case Blob(len, bytes) =>
      hide Head, Varint.Length, ReadPayload;
      BlobReads(len, bytes, rest, l);
  }

  /** A well-formed field of a known number is consumed exactly and applied, or refused for its wire type. */
  lemma DecodeFamiliar<M(!new)>(sc: Schema<M>, f: Field, rest: seq<byte>, l: int, m: M, seen: set<int>)
    requires Lawful(sc) && Minimal(f) && !Foreign(sc, f) && l - |rest| < TWO_63
    ensures var num := FieldNum(Head(f.tag)); var r := sc.apply(m, num, PayloadOf(f.body));
            Decode(sc, FieldBytes(f) + rest, l, m, seen) ==
              if BodyKind(f.body) != sc.kind(num) then Fail(WrongWireType(num))
              else if r.Fail? then r
              else Decode(sc, rest, l, r.value, seen + {num})
  {
    FieldParts(f);
    hide Head, Varint.Length, SkipLog, BodyBytes, Varint.Encode, WellFormedBody, FieldNum, ReadPayload, Decode,
         PayloadOf;
    var body := BodyBytes(f.body);
    var s := FieldBytes(f) + rest;
    Seqs.Assoc(f.tag, body, rest);
    TagSplit(f.tag, body + rest);
    DecodeRound(sc, s, l, m, seen);
    if BodyKind(f.body) == sc.kind(FieldNum(Head(f.tag))) {
      PayloadReads(f.body, rest, l);
    }
    Seqs.DropAppend(s, |f.tag|, body, rest);
  }

  lemma KeepsApplying<M(!new)>(sc: Schema<M>, m: M, num: int, p: Payload, b: seq<byte>)
    requires Lawful(sc)
    ensures sc.apply(sc.keep(m, b), num, p) == Keeping(sc, sc.apply(m, num, p), b)
  {
  }

  lemma KeepsTwice<M(!new)>(sc: Schema<M>, m: M, a: seq<byte>, b: seq<byte>)
    requires Lawful(sc)
    ensures sc.keep(sc.keep(m, a), b) == sc.keep(m, a + b) && sc.keep(m, []) == m
  {
  }

  lemma {:induction false} FinishKeeping<M>(sc: Schema<M>, required: seq<int>, m: M, b: seq<byte>, seen: set<int>)
    ensures Finish(required, sc.keep(m, b), seen) == Keeping(sc, Finish(required, m, seen), b)
    decreases |required|
  {
    if required != [] { FinishKeeping(sc, required[1..], m, b, seen); }
  }

  /** Known fields do the same to a message whatever unknown bytes it holds already. */
  lemma {:induction false} FamiliarKeeps<M(!new)>(
    sc: Schema<M>, fs: seq<Field>, l: int, m: M, b: seq<byte>, seen: set<int>)
    requires Lawful(sc) && (forall f | f in fs :: Minimal(f) && !Foreign(sc, f)) && l < TWO_63
    ensures Decode(sc, FieldsBytes(fs), l, sc.keep(m, b), seen)
         == Keeping(sc, Decode(sc, FieldsBytes(fs), l, m, seen), b)
    decreases |fs|
  {
    hide Lawful, FieldBytes, Minimal, Foreign, PayloadOf, FieldNum, Head, BodyKind;
    if fs == [] {
      EmptyDecode(sc, l, m, seen);
      EmptyDecode(sc, l, sc.keep(m, b), seen);
      FinishKeeping(sc, sc.required, m, b, seen);
    } else {
      hide Decode;
      var f, rest := fs[0], FieldsBytes(fs[1..]);
      var num := FieldNum(Head(f.tag));
      var r := sc.apply(m, num, PayloadOf(f.body));
      DecodeFamiliar(sc, f, rest, l, m, seen);
      DecodeFamiliar(sc, f, rest, l, sc.keep(m, b), seen);
      KeepsApplying(sc, m, num, PayloadOf(f.body), b);
      if r.Ok? { FamiliarKeeps(sc, fs[1..], l, r.value, b, seen + {num}); }
    }
  }

  lemma EmptyDecode<M>(sc: Schema<M>, l: int, m: M, seen: set<int>)
    ensures FieldsBytes([]) == [] && Decode(sc, [], l, m, seen) == Finish(sc.required, m, seen)
  {
  }

  lemma {:induction false} FamiliarIs<M>(sc: Schema<M>, fs: seq<Field>)
    requires forall f | f in fs :: Minimal(f)
    ensures forall f | f in Familiar(sc, fs) :: Minimal(f) && !Foreign(sc, f)
    decreases |fs|
  {
    hide Minimal, FieldBytes;
    if fs != [] { FamiliarIs(sc, fs[1..]); }
  }

  lemma ForeignFirst<M>(sc: Schema<M>, fs: seq<Field>)
    requires fs != []
    ensures Foreign(sc, fs[0]) ==>
      ForeignBytes(sc, fs) == FieldBytes(fs[0]) + ForeignBytes(sc, fs[1..]) && Familiar(sc, fs) == Familiar(sc, fs[1..])
    ensures !Foreign(sc, fs[0]) ==>
      && ForeignBytes(sc, fs) == ForeignBytes(sc, fs[1..])
      && FieldsBytes(Familiar(sc, fs)) == FieldBytes(fs[0]) + FieldsBytes(Familiar(sc, fs[1..]))
      && Familiar(sc, fs) == [fs[0]] + Familiar(sc, fs[1..])
  {
    hide Foreign, FieldBytes;
    var t := Familiar(sc, fs[1..]);
    assert [] + t == t && ([fs[0]] + t)[1..] == t;
    assert [] + ForeignBytes(sc, fs[1..]) == ForeignBytes(sc, fs[1..]);
  }

  /** Whatever known and unknown fields are mixed: the outcome is that of the known fields alone, to which
      the unknown ones are added unchanged and in order.  `k` is the length of the shorter input. */
  lemma {:induction false} MixedDecodes<M(!new)>(
    sc: Schema<M>, fs: seq<Field>, l: int, k: int, m: M, seen: set<int>)
    requires Lawful(sc) && (forall f | f in fs :: Minimal(f)) && l < TWO_63 && k < TWO_63
    ensures Decode(sc, FieldsBytes(fs), l, m, seen)
         == Keeping(sc, Decode(sc, FieldsBytes(Familiar(sc, fs)), k, m, seen), ForeignBytes(sc, fs))
    decreases |fs|
  {
    hide Lawful, FieldBytes, Minimal, PayloadOf, FieldNum, Head, BodyKind;
    if fs == [] {
      EmptyDecode(sc, l, m, seen);
      EmptyDecode(sc, k, m, seen);
      FinishKeeping(sc, sc.required, m, [], seen);
      KeepsTwice(sc, m, [], []);
    } else {
      hide Decode, Foreign;
      ForeignFirst(sc, fs);
      if Foreign(sc, fs[0]) {
        MixedForeign(sc, fs, l, k, m, seen);
      } else {
        MixedFamiliar(sc, fs, l, k, m, seen);
      }
    }
  }

  lemma {:induction false} MixedForeign<M(!new)>(
    sc: Schema<M>, fs: seq<Field>, l: int, k: int, m: M, seen: set<int>)
    requires Lawful(sc) && (forall f | f in fs :: Minimal(f)) && l < TWO_63 && k < TWO_63
    requires fs != [] && Foreign(sc, fs[0])
    ensures Decode(sc, FieldsBytes(fs), l, m, seen)
         == Keeping(sc, Decode(sc, FieldsBytes(Familiar(sc, fs)), k, m, seen), ForeignBytes(sc, fs))
    decreases |fs|, 0
  {
    hide Lawful, FieldBytes, Minimal, PayloadOf, FieldNum, Head, BodyKind, Decode, Foreign;
    var b, known := FieldBytes(fs[0]), Familiar(sc, fs[1..]);
    ForeignFirst(sc, fs);
    FamiliarIs(sc, fs[1..]);
    DecodeForeign(sc, fs[0], FieldsBytes(fs[1..]), l, m, seen);
    MixedDecodes(sc, fs[1..], l, k, sc.keep(m, b), seen);
    FamiliarKeeps(sc, known, k, m, b, seen);
    var r := Decode(sc, FieldsBytes(known), k, m, seen);
    if r.Ok? { KeepsTwice(sc, r.value, b, ForeignBytes(sc, fs[1..])); }
  }

  lemma {:induction false} MixedFamiliar<M(!new)>(
    sc: Schema<M>, fs: seq<Field>, l: int, k: int, m: M, seen: set<int>)
    requires Lawful(sc) && (forall f | f in fs :: Minimal(f)) && l < TWO_63 && k < TWO_63
    requires fs != [] && !Foreign(sc, fs[0])
    ensures Decode(sc, FieldsBytes(fs), l, m, seen)
         == Keeping(sc, Decode(sc, FieldsBytes(Familiar(sc, fs)), k, m, seen), ForeignBytes(sc, fs))
    decreases |fs|, 0
  {
    hide Lawful, FieldBytes, Minimal, PayloadOf, FieldNum, Head, BodyKind, Decode, Foreign;
    var f := fs[0];
    var num := FieldNum(Head(f.tag));
    var r := sc.apply(m, num, PayloadOf(f.body));
    ForeignFirst(sc, fs);
    DecodeFamiliar(sc, f, FieldsBytes(fs[1..]), l, m, seen);
    DecodeFamiliar(sc, f, FieldsBytes(Familiar(sc, fs[1..])), k, m, seen);
    if r.Ok? { MixedDecodes(sc, fs[1..], l, k, r.value, seen + {num}); }
  }

  /** Known fields alone leave the unknown bytes as they are. */
  lemma {:induction false} UnknownOfFamiliar<M(!new)>(sc: Schema<M>, fs: seq<Field>, l: int, m: M, seen: set<int>)
    requires Lawful(sc) && (forall f | f in fs :: Minimal(f) && !Foreign(sc, f)) && l < TWO_63
    ensures var r := Decode(sc, FieldsBytes(fs), l, m, seen);
            r.Ok? ==> sc.unknown(r.value) == sc.unknown(m)
    decreases |fs|
  {
    hide FieldBytes, Minimal, Foreign, PayloadOf, FieldNum, Head, BodyKind;
    if fs == [] {
      EmptyDecode(sc, l, m, seen);
      FinishKeeps(sc.required, m, seen);
    } else {
      hide Decode;
      var num := FieldNum(Head(fs[0].tag));
      var r := sc.apply(m, num, PayloadOf(fs[0].body));
      DecodeFamiliar(sc, fs[0], FieldsBytes(fs[1..]), l, m, seen);
      if r.Ok? { UnknownOfFamiliar(sc, fs[1..], l, r.value, seen + {num}); }
    }
  }

  lemma {:induction false} FinishKeeps<M>(required: seq<int>, m: M, seen: set<int>)
    ensures Finish(required, m, seen).Ok? ==> Finish(required, m, seen).value == m
    ensures Finish(required, m, seen).Ok? <==> forall num | num in required :: num in seen
    decreases |required|
  {
    if required != [] {
      FinishKeeps(required[1..], m, seen);
      assert required == [required[0]] + required[1..];
    }
  }

  /** In particular a successful decode keeps the unknown fields unchanged and in order. */
  lemma UnknownFieldsAreKept<M(!new)>(sc: Schema<M>, fs: seq<Field>, m: M, seen: set<int>)
    requires Lawful(sc) && (forall f | f in fs :: Minimal(f))
    requires |FieldsBytes(fs)| < TWO_63 && |FieldsBytes(Familiar(sc, fs))| < TWO_63
    ensures DecodeWhole(sc, FieldsBytes(fs), m, seen)
         == Keeping(sc, DecodeWhole(sc, FieldsBytes(Familiar(sc, fs)), m, seen), ForeignBytes(sc, fs))
    ensures var r := DecodeWhole(sc, FieldsBytes(fs), m, seen);
            r.Ok? ==> sc.unknown(r.value) == sc.unknown(m) + ForeignBytes(sc, fs)
  {
    hide FieldsBytes, Decode, ForeignBytes, Familiar, Minimal, Foreign;
    MixedDecodes(sc, fs, |FieldsBytes(fs)|, |FieldsBytes(Familiar(sc, fs))|, m, seen);
    FamiliarIs(sc, fs);
    UnknownOfFamiliar(sc, Familiar(sc, fs), |FieldsBytes(Familiar(sc, fs))|, m, seen);
  }

  /** `Unmarshal` on a whole input. */
  function DecodeWhole<M>(sc: Schema<M>, s: seq<byte>, m: M, seen: set<int>): Result<M> {
    Decode(sc, s, |s|, m, seen)
  }
}
