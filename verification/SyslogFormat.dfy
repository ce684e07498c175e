/** Syslog input: what a message is made of, how many bytes it takes, and what is counted. */
module SyslogFormat {

  import opened Wrappers
  import opened Bits
  import opened Messages
  import Seqs
  import D = Decimals

  const SP: byte := 32
  const NL: byte := 10
  const DASH: byte := 45
  const QUOTE: byte := 34
  const BACKSLASH: byte := 92
  const OPEN: byte := 91
  const CLOSE: byte := 93
  const EQUALS: byte := 61
  const COLON: byte := 58

  /** What a part of the input was read as; `Crash` is a panic. */
  datatype Outcome<+T> = Good(value: T, rest: seq<byte>) | Error | Crash

  /** `time.Parse` with the i-th of the four layouts, and `tai64n.FromTime`. */
  type TimeParser = (nat, seq<byte>) -> Option<Interval>

  /** The lengths of the layouts; only the third, of RFC 3339, holds no space. */
  const LAYOUTS: seq<nat> := [15, 15, 25, 15]

  // ---------------------------------------------------------------------------------------------
  // Pieces
  // ---------------------------------------------------------------------------------------------

  /** `ReadString(d)` without the delimiter. */
  function Until(s: seq<byte>, d: byte): (r: Outcome<seq<byte>>)
    ensures r.Good? ==> |s| == |r.value| + 1 + |r.rest|
    ensures !r.Crash?
  {
    var i := Seqs.IndexOf(s, d);
    if i < 0 then Error else Good(s[..i], s[i + 1..])
  }

  /** `strconv.Atoi`. */
  function Atoi(s: seq<byte>): Option<int> {
    var negative := s != [] && s[0] == DASH;
    var digits := if s != [] && (s[0] == DASH || s[0] == 43) then s[1..] else s;
    if digits == [] || !D.AllDigits(digits) then None
    else
      var v := if negative then -D.Number(digits) else D.Number(digits);
      if -TWO_63 <= v < TWO_63 then Some(v) else None
  }

  /** `<`, a number, `>`. */
  function Priority(s: seq<byte>): (r: Outcome<int>)
    ensures r.Good? ==> |r.rest| <= |s|
    ensures !r.Crash?
  {
    if s == [] || s[0] != 60 then Error
    else match Until(s[1..], 62)
         case Good(text, rest) => (match Atoi(text) case Some(p) => Good(p, rest) case None => Error)
         case Error => Error
         case Crash => Crash
  }

  /** The bytes that a layout is tried on. */
  function Sample(s: seq<byte>, i: nat): seq<byte>
    requires i < 4 && LAYOUTS[i] <= |s|
  {
    var sub := s[..LAYOUTS[i]];
    if i == 2 && Seqs.IndexOf(sub, SP) >= 0 then sub[..Seqs.IndexOf(sub, SP)] else sub
  }

  /** The time stamp, by the first layout from the i-th on that fits; there must be enough input to try. */
  function Stamp(pt: TimeParser, s: seq<byte>, i: nat): (r: Outcome<Interval>)
    requires i <= 4
    ensures r.Good? ==> |r.rest| <= |s|
    ensures !r.Crash?
    decreases 4 - i
  {
    if i == 4 || LAYOUTS[i] > |s| then Error
    else match pt(i, Sample(s, i))
         case Some(t) => Good(t, s[|Sample(s, i)|..])
         case None => Stamp(pt, s, i + 1)
  }

  function Space(s: seq<byte>): (r: Outcome<()>)
    ensures r.Good? ==> |s| == 1 + |r.rest|
    ensures !r.Crash?
  {
    if s == [] || s[0] != SP then Error else Good((), s[1..])
  }

  // ---------------------------------------------------------------------------------------------
  // Structured data
  // ---------------------------------------------------------------------------------------------

  datatype Param = Param(name: seq<byte>, value: seq<byte>)

  /** A value up to its closing quote; a backslash gives the byte behind it. */
  function Value(s: seq<byte>): (r: Outcome<seq<byte>>)
    ensures r.Good? ==> |r.rest| < |s|
    ensures !r.Crash?
  {
    if s == [] then Error
    else if s[0] == QUOTE then Good([], s[1..])
    else if s[0] == BACKSLASH then
      if |s| == 1 then Error
      else match Value(s[2..])
           case Good(v, rest) => Good([s[1]] + v, rest)
           case Error => Error
           case Crash => Crash
    else match Value(s[1..])
         case Good(v, rest) => Good([s[0]] + v, rest)
         case Error => Error
         case Crash => Crash
  }

  /** The parameters up to the closing bracket. */
  function Params(s: seq<byte>): (r: Outcome<seq<Param>>)
    ensures r.Good? ==> |r.rest| < |s|
    ensures !r.Crash?
    decreases |s|
  {
    if s == [] then Error
    else if s[0] == CLOSE then Good([], s[1..])
    else match Until(if s[0] == SP then s[1..] else s, EQUALS)
         case Error => Error
         case Crash => Crash
         case Good(name, rest) =>
           if rest == [] || rest[0] != QUOTE then Error
           else match Value(rest[1..])
                case Error => Error
                case Crash => Crash
                case Good(v, rest) =>
                  match Params(rest)
                  case Error => Error
                  case Crash => Crash
                  case Good(ps, rest) => Good([Param(name, v)] + ps, rest)
  }

  /** One element: its name, which starts with a bracket that is not looked at, and its parameters. */
  function Element(s: seq<byte>): (r: Outcome<(seq<byte>, seq<Param>)>)
    ensures r.Good? ==> |r.rest| < |s|
  {
    match Until(s, SP)
    case Error => Error
    case Crash => Crash
    case Good(id, rest) =>
      if id == [] then Crash
      else match Params(rest)
           case Error => Error
           case Crash => Crash
           case Good(ps, rest) => Good((id[1..], ps), rest)
  }

  /** `-` and a space, or one element. */
  function Data(s: seq<byte>): (r: Outcome<(seq<byte>, seq<Param>)>)
    ensures r.Good? ==> |r.rest| < |s|
  {
    if s == [] then Error
    else if s[0] == DASH then
      match Space(s[1..])
      case Good(_, rest) => Good(([], []), rest)
      case Error => Error
      case Crash => Crash
    else Element(s)
  }

  /** Section 6.3.3 of RFC 5424: quote, backslash and closing bracket are escaped in values. */
  function Escape(v: seq<byte>): seq<byte> {
    if v == [] then []
    else if v[0] in [QUOTE, BACKSLASH, CLOSE] then [BACKSLASH, v[0]] + Escape(v[1..])
    else [v[0]] + Escape(v[1..])
  }

  function ParamText(p: Param): seq<byte> {
    [SP] + p.name + [EQUALS, QUOTE] + Escape(p.value) + [QUOTE]
  }

  function ParamsText(ps: seq<Param>): seq<byte> {
    if ps == [] then [] else ParamText(ps[0]) + ParamsText(ps[1..])
  }

  function ElementText(id: seq<byte>, ps: seq<Param>): seq<byte> {
    [OPEN] + id + ParamsText(ps) + [CLOSE]
  }

  lemma ValueIs(s: seq<byte>)
    ensures s != [] && s[0] == QUOTE ==> Value(s) == Good([], s[1..])
    ensures |s| > 1 && s[0] == BACKSLASH && Value(s[2..]).Good? ==>
      Value(s) == Good([s[1]] + Value(s[2..]).value, Value(s[2..]).rest)
    ensures s != [] && s[0] != QUOTE && s[0] != BACKSLASH && Value(s[1..]).Good? ==>
      Value(s) == Good([s[0]] + Value(s[1..]).value, Value(s[1..]).rest)
  {
  }

  lemma EscapeIs(v: seq<byte>, q: seq<byte>)
    ensures v == [] ==> Escape(v) + q == q
    ensures v != [] && v[0] in [QUOTE, BACKSLASH, CLOSE] ==> Escape(v) + q == [BACKSLASH, v[0]] + (Escape(v[1..]) + q)
    ensures v != [] && v[0] !in [QUOTE, BACKSLASH, CLOSE] ==> Escape(v) + q == [v[0]] + (Escape(v[1..]) + q)
  {
    if v != [] {
      Seqs.Assoc([BACKSLASH, v[0]], Escape(v[1..]), q);
      Seqs.Assoc([v[0]], Escape(v[1..]), q);
    }
    assert [] + q == q;
  }

  lemma {:induction false} ValueReads(v: seq<byte>, t: seq<byte>)
    ensures Value(Escape(v) + ([QUOTE] + t)) == Good(v, t)
    decreases |v|
  {
    var s := Escape(v) + ([QUOTE] + t);
    EscapeIs(v, [QUOTE] + t);
    ValueIs(s);
    hide Value, Escape;
    if v != [] {
      var rest := Escape(v[1..]) + ([QUOTE] + t);
      ValueReads(v[1..], t);
      Seqs.Cons(v);
      assert ([BACKSLASH, v[0]] + rest)[2..] == rest && ([v[0]] + rest)[1..] == rest;
    }
  }

  lemma {:induction false} UntilFinds(a: seq<byte>, d: byte, t: seq<byte>)
    requires d !in a
    ensures Until(a + ([d] + t), d) == Good(a, t)
    decreases |a|
  {
    var s := a + ([d] + t);
    if a == [] {
      assert s == [d] + t;
    } else {
      UntilFinds(a[1..], d, t);
      assert s[1..] == a[1..] + ([d] + t);
      assert s[..|a|] == a && s[|a| + 1..] == t;
    }
  }

  /** A parameter name that is written as it is. */
  predicate NameOk(name: seq<byte>) {
    EQUALS !in name && (name != [] ==> name[0] != SP && name[0] != CLOSE)
  }

  predicate NamesOk(ps: seq<Param>) {
    forall p | p in ps :: NameOk(p.name)
  }

  lemma ParamShape(p: Param, t: seq<byte>)
    ensures ParamText(p) + t == [SP] + (p.name + ([EQUALS] + ([QUOTE] + (Escape(p.value) + ([QUOTE] + t)))))
  {
    assert [EQUALS, QUOTE] == [EQUALS] + [QUOTE];
  }

  lemma ParamsIs(s: seq<byte>)
    ensures var u := if s != [] && s[0] == SP then s[1..] else s;
            var n := Until(u, EQUALS);
            s != [] && s[0] != CLOSE && n.Good? && n.rest != [] && n.rest[0] == QUOTE && Value(n.rest[1..]).Good? ==>
              var v := Value(n.rest[1..]);
              Params(s) == match Params(v.rest)
                           case Error => Error
                           case Crash => Crash
                           case Good(ps, rest) => Good([Param(n.value, v.value)] + ps, rest)
    ensures s != [] && s[0] == CLOSE ==> Params(s) == Good([], s[1..])
  {
    hide Until, Value;
  }

  /** One parameter, with or without a space before it. */
  lemma ParamReads(p: Param, s: seq<byte>, t: seq<byte>)
    requires NameOk(p.name)
    requires s == ParamText(p) + t || s == (ParamText(p) + t)[1..]
    ensures Params(s) == match Params(t)
                         case Error => Error
                         case Crash => Crash
                         case Good(ps, rest) => Good([p] + ps, rest)
  {
    var value := Escape(p.value) + ([QUOTE] + t);
    var u := p.name + ([EQUALS] + ([QUOTE] + value));
    ParamShape(p, t);
    assert ([SP] + u)[1..] == u && ([QUOTE] + value)[1..] == value;
    assert u[0] == if p.name == [] then EQUALS else p.name[0];
    ParamsIs(s);
    hide Until, Value, Escape, ParamText, Params;
    UntilFinds(p.name, EQUALS, [QUOTE] + value);
    ValueReads(p.value, t);
  }

  lemma {:induction false} ParamsRead(ps: seq<Param>, t: seq<byte>)
    requires NamesOk(ps)
    ensures Params(ParamsText(ps) + ([CLOSE] + t)) == Good(ps, t)
    decreases |ps|
  {
    if ps == [] {
      assert ParamsText(ps) + ([CLOSE] + t) == [CLOSE] + t;
    } else {
      var rest := ParamsText(ps[1..]) + ([CLOSE] + t);
      ParamsRead(ps[1..], t);
      hide ParamText, Params, NameOk;
      Seqs.Assoc(ParamText(ps[0]), ParamsText(ps[1..]), [CLOSE] + t);
      ParamReads(ps[0], ParamText(ps[0]) + rest, rest);
      Seqs.Cons(ps);
    }
  }

  lemma FirstParam(p: Param, rest: seq<byte>)
    ensures ParamText(p) + rest != [] && ParamText(p) + rest == [SP] + (ParamText(p) + rest)[1..]
  {
  }

  /** An element with at least one parameter is read back as its name and its parameters, exactly. */
  lemma ElementRoundTrip(id: seq<byte>, ps: seq<Param>, t: seq<byte>)
    requires SP !in id && ps != [] && NamesOk(ps)
    ensures Data(ElementText(id, ps) + t) == Good((id, ps), t)
  {
    var tail := [CLOSE] + t;
    var rest := ParamsText(ps[1..]) + tail;
    var first := ParamText(ps[0]) + rest;
    FirstParam(ps[0], rest);
    Seqs.Assoc(ParamText(ps[0]), ParamsText(ps[1..]), tail);
    ElementShape(id, ps, t, first[1..]);
    ElementStart(id, first[1..]);
    ElementIs([OPEN] + id, first[1..]);
    hide ParamText, Params, NameOk, Until, Element, ElementText;
    ParamsRead(ps[1..], t);
    ParamReads(ps[0], first[1..], rest);
    Seqs.Cons(ps);
  }

  lemma ElementShape(id: seq<byte>, ps: seq<Param>, t: seq<byte>, u: seq<byte>)
    requires ps != [] && ParamText(ps[0]) + (ParamsText(ps[1..]) + ([CLOSE] + t)) == [SP] + u
    ensures ElementText(id, ps) + t == [OPEN] + id + ([SP] + u)
  {
    hide ParamText;
    Seqs.Assoc(ParamText(ps[0]), ParamsText(ps[1..]), [CLOSE] + t);
    Seqs.Assoc([OPEN] + id + ParamsText(ps), [CLOSE], t);
    Seqs.Assoc([OPEN] + id, ParamsText(ps), [CLOSE] + t);
  }

  lemma ElementStart(id: seq<byte>, u: seq<byte>)
    requires SP !in id
    ensures var s := [OPEN] + id + ([SP] + u); Data(s) == Element(s)
  {
    hide Element;
  }

  lemma ElementIs(head: seq<byte>, u: seq<byte>)
    requires SP !in head && head != []
    ensures Element(head + ([SP] + u)) == match Params(u)
                                          case Error => Error
                                          case Crash => Crash
                                          case Good(ps, rest) => Good((head[1..], ps), rest)
  {
    UntilFinds(head, SP, u);
    hide Params, Until;
  }

  /** An element without parameters is not recognised as such: its bracket goes into the name, and what
      follows the space behind it is read as parameters. */
  lemma BareElementIsMisread(id: seq<byte>, t: seq<byte>)
    requires SP !in id
    ensures Data([OPEN] + id + [CLOSE] + ([SP] + t)) == match Params(t)
                                                        case Error => Error
                                                        case Crash => Crash
                                                        case Good(ps, rest) => Good((id + [CLOSE], ps), rest)
  {
    var head := [OPEN] + id + [CLOSE];
    assert head == [OPEN] + (id + [CLOSE]) && head[1..] == id + [CLOSE];
    ElementStart(id + [CLOSE], t);
    ElementIs(head, t);
    hide Params, Element;
  }

  // ---------------------------------------------------------------------------------------------
  // Messages
  // ---------------------------------------------------------------------------------------------

  /** What a message says before its text; the second form is that of RFC 5424. */
  datatype Entry =
    | Plain(stamp: Interval, host: seq<byte>, tag: seq<byte>, pid: int)
    | Structured(stamp: Interval, host: seq<byte>, tag: seq<byte>, procid: seq<byte>, msgid: seq<byte>,
                 element: seq<byte>, params: seq<Param>)

  datatype SyslogMessage = SyslogMessage(priority: int, entry: Entry, text: seq<byte>)

  /** The pid in brackets behind a tag; `None` is the panic when the brackets come in the wrong order. */
  function TagAndPid(text: seq<byte>): Option<(seq<byte>, int)> {
    var left, right := Seqs.IndexOf(text, OPEN), Seqs.IndexOf(text, CLOSE);
    if left < 0 || right < 0 then Some((text, 0))
    else if right < left then None
    else match Atoi(text[left + 1..right])
         case None => Some((text, 0))
         case Some(pid) => Some((text[..left], pid))
  }

  /** Time stamp and host, which both forms start with. */
  function StampAndHost(pt: TimeParser, s: seq<byte>): (r: Outcome<(Interval, seq<byte>)>)
    ensures r.Good? ==> |r.rest| <= |s|
    ensures !r.Crash?
  {
    match Stamp(pt, s, 0)
    case Error => Error
    case Crash => Crash
    case Good(stamp, rest) =>
      match Space(rest)
      case Error => Error
      case Crash => Crash
      case Good(_, rest) =>
        match Until(rest, SP)
        case Error => Error
        case Crash => Crash
        case Good(host, rest) => Good((stamp, host), rest)
  }

  function PlainHead(pt: TimeParser, s: seq<byte>): (r: Outcome<Entry>)
    ensures r.Good? ==> |r.rest| <= |s|
  {
    match StampAndHost(pt, s)
    case Error => Error
    case Crash => Crash
    case Good((stamp, host), rest) =>
      match Until(rest, COLON)
      case Error => Error
      case Crash => Crash
      case Good(text, rest) =>
        match TagAndPid(text)
        case None => Crash
        case Some((tag, pid)) => Good(Plain(stamp, host, tag, pid), rest)
  }

  /** Three words and their spaces. */
  function Words(s: seq<byte>): (r: Outcome<(seq<byte>, seq<byte>, seq<byte>)>)
    ensures r.Good? ==> |r.rest| <= |s|
    ensures !r.Crash?
  {
    var a := Until(s, SP);
    if !a.Good? then Error
    else
      var b := Until(a.rest, SP);
      if !b.Good? then Error
      else
        var c := Until(b.rest, SP);
        if !c.Good? then Error else Good((a.value, b.value, c.value), c.rest)
  }

  function StructuredHead(pt: TimeParser, s: seq<byte>): (r: Outcome<Entry>)
    ensures r.Good? ==> |r.rest| <= |s|
  {
    match StampAndHost(pt, s)
    case Error => Error
    case Crash => Crash
    case Good((stamp, host), rest) =>
      match Words(rest)
      case Error => Error
      case Crash => Crash
      case Good((tag, procid, msgid), rest) =>
        match Data(rest)
        case Error => Error
        case Crash => Crash
        case Good((element, params), rest) => Good(Structured(stamp, host, tag, procid, msgid, element, params), rest)
  }

  /** Everything before the text. */
  function Head(pt: TimeParser, s: seq<byte>): (r: Outcome<(int, Entry)>)
    ensures r.Good? ==> |r.rest| <= |s|
  {
    match Priority(s)
    case Error => Error
    case Crash => Crash
    case Good(priority, rest) =>
      if |rest| < 2 then Error
      else
        match (if rest[0] == 49 && rest[1] == SP then StructuredHead(pt, rest[2..]) else PlainHead(pt, rest))
        case Error => Error
        case Crash => Crash
        case Good(entry, rest) => Good((priority, entry), rest)
  }

  const FACILITIES := 24
  const SEVERITIES := 8

  /** The lookups in the tables of facilities and severities go out of range. */
  predicate NoSuchPriority(p: int) {
    if p > 8 then
      var facility := if p / 8 > FACILITIES then 0 else p / 8;
      facility >= FACILITIES || p % 8 >= SEVERITIES
    else p < 0 || p >= SEVERITIES
  }

  /** Of the priorities of RFC 5424, 0 to 191, exactly 8 (a user emergency) makes the parser panic. */
  lemma PanickingPriorities(p: int)
    ensures NoSuchPriority(p) <==> p < 0 || p == 8 || 192 <= p < 200
  {
    if p > 8 {
      assert p / 8 == 24 <==> 192 <= p < 200;
    }
  }

  /** How the reads of a connection fare: how many bytes one delivers at most that finds `n` bytes to come. */
  type Arrival = nat -> nat

  /** The bytes that a read of `left` bytes delivers when `n` are to come: at least one. */
  function Amount(arrives: Arrival, left: nat, n: nat): (d: nat)
    requires left > 0 && n > 0
    ensures 1 <= d <= left && d <= n
    ensures d == left <==> left <= n && left <= (if arrives(n) == 0 then 1 else arrives(n))
  {
    var most := if left < n then left else n;
    if arrives(n) == 0 then 1 else if arrives(n) < most then arrives(n) else most
  }

  function Zeros(n: nat): (z: seq<byte>)
    ensures |z| == n
  {
    if n == 0 then [] else [0] + Zeros(n - 1)
  }

  /** The text: for what is left of a counted message one read, whose missing bytes stay zero; otherwise a line. */
  function Text(s: seq<byte>, left: int, arrives: Arrival): (r: Outcome<seq<byte>>)
    ensures r.Good? ==> |r.rest| < |s|
    ensures r.Good? && left <= 0 ==> |s| == |r.value| + |r.rest|
    ensures !r.Crash?
  {
    if left > 0 then
      if s == [] then Error
      else var d := Amount(arrives, left, |s|); Good(s[..d] + Zeros(left - d), s[d..])
    else match Until(s, NL)
         case Good(text, rest) => Good(text + [NL], rest)
         case Error => Error
         case Crash => Crash
  }

  /** `parseSyslog` of a message of `total` bytes, or of a line if `total` is 0. */
  function Parse(pt: TimeParser, s: seq<byte>, total: int, arrives: Arrival): (r: Outcome<SyslogMessage>)
    ensures r.Good? ==> |r.rest| < |s|
  {
    match Head(pt, s)
    case Error => Error
    case Crash => Crash
    case Good((priority, entry), rest) =>
      match Text(rest, total - (|s| - |rest|), arrives)
      case Error => Error
      case Crash => Crash
      case Good(text, rest) =>
        if NoSuchPriority(priority) then Crash else Good(SyslogMessage(priority, entry, text), rest)
  }

  /** A counted message whose head is shorter than the count takes exactly the counted bytes if and only if its
      read delivers all of them, and fewer otherwise; one whose head is not takes more, up to a newline. */
  lemma CountedIsExact(pt: TimeParser, s: seq<byte>, total: int, arrives: Arrival)
    requires Parse(pt, s, total, arrives).Good?
    ensures var rest := Head(pt, s).rest;
            var left, n := total - (|s| - |rest|), |s| - |Parse(pt, s, total, arrives).rest|;
            if left > 0 then
              && rest != [] && n == total - (left - Amount(arrives, left, |rest|))
              && (n == total <==> left <= |rest| && left <= (if arrives(|rest|) == 0 then 1 else arrives(|rest|)))
            else n > total && s[n - 1] == NL
  {
    hide *;
    HeadIsSuffix(pt, s);
    ParseIs(pt, s, total, arrives);
    var rest := Head(pt, s).rest;
    var left := total - (|s| - |rest|);
    if left <= 0 {
      LineIsLine(rest);
      SuffixAt(s, rest, |rest| - |Until(rest, NL).rest| - 1);
    } else {
      AmountIs(arrives, left, |rest|);
    }
  }

  lemma AmountIs(arrives: Arrival, left: nat, n: nat)
    requires left > 0 && n > 0
    ensures var d := Amount(arrives, left, n);
            1 <= d <= left && d <= n
            && (d == left <==> left <= n && left <= (if arrives(n) == 0 then 1 else arrives(n)))
  {
  }

  lemma SuffixAt(s: seq<byte>, t: seq<byte>, i: nat)
    requires |t| <= |s| && t == s[|s| - |t|..] && i < |t|
    ensures t[i] == s[|s| - |t| + i]
  {
  }

  lemma ParseIs(pt: TimeParser, s: seq<byte>, total: int, arrives: Arrival)
    requires Parse(pt, s, total, arrives).Good?
    ensures Head(pt, s).Good?
    ensures var rest := Head(pt, s).rest; var left := total - (|s| - |rest|);
            if left > 0 then rest != [] && Parse(pt, s, total, arrives).rest == rest[Amount(arrives, left, |rest|)..]
            else Until(rest, NL).Good? && Parse(pt, s, total, arrives).rest == Until(rest, NL).rest
  {
    hide Head, Until, Amount;
  }

  lemma LineIsLine(s: seq<byte>)
    ensures Until(s, NL).Good? ==> |Until(s, NL).rest| < |s| && s[|s| - |Until(s, NL).rest| - 1] == NL
  {
  }

  lemma HeadIsSuffix(pt: TimeParser, s: seq<byte>)
    ensures Head(pt, s).Good? ==> Head(pt, s).rest == s[|s| - |Head(pt, s).rest|..]
  {
    hide Priority, StructuredHead, PlainHead;
    if Head(pt, s).Good? {
      PrioritySuffix(s);
      var rest := Priority(s).rest;
      StructuredSuffix(pt, rest[2..]);
      PlainSuffix(pt, rest);
    }
  }

  lemma PrioritySuffix(s: seq<byte>)
    ensures Priority(s).Good? ==> Priority(s).rest == s[|s| - |Priority(s).rest|..]
  {
  }

  lemma StartSuffix(pt: TimeParser, s: seq<byte>)
    ensures StampAndHost(pt, s).Good? ==> StampAndHost(pt, s).rest == s[|s| - |StampAndHost(pt, s).rest|..]
  {
    StampSuffix(pt, s, 0);
    hide Stamp;
  }

  lemma {:induction false} StampSuffix(pt: TimeParser, s: seq<byte>, i: nat)
    requires i <= 4
    ensures Stamp(pt, s, i).Good? ==> Stamp(pt, s, i).rest == s[|s| - |Stamp(pt, s, i).rest|..]
    decreases 4 - i
  {
    if i < 4 {
      StampSuffix(pt, s, i + 1);
    }
  }

  lemma PlainSuffix(pt: TimeParser, s: seq<byte>)
    ensures PlainHead(pt, s).Good? ==> PlainHead(pt, s).rest == s[|s| - |PlainHead(pt, s).rest|..]
  {
    StartSuffix(pt, s);
    hide StampAndHost, TagAndPid;
  }

  lemma StructuredSuffix(pt: TimeParser, s: seq<byte>)
    ensures StructuredHead(pt, s).Good? ==> StructuredHead(pt, s).rest == s[|s| - |StructuredHead(pt, s).rest|..]
  {
    hide StampAndHost, Words, Data;
    StartSuffix(pt, s);
    if StampAndHost(pt, s).Good? && Words(StampAndHost(pt, s).rest).Good? {
      WordsSuffix(StampAndHost(pt, s).rest);
      DataSuffix(Words(StampAndHost(pt, s).rest).rest);
    }
  }

  lemma WordsSuffix(s: seq<byte>)
    ensures Words(s).Good? ==> Words(s).rest == s[|s| - |Words(s).rest|..]
  {
  }

  lemma DataSuffix(s: seq<byte>)
    ensures Data(s).Good? ==> Data(s).rest == s[|s| - |Data(s).rest|..]
  {
    if Data(s).Good? && s[0] != DASH {
      ParamsSuffix(Until(s, SP).rest);
    }
    hide Params;
  }

  lemma {:induction false} ValueSuffix(s: seq<byte>)
    ensures Value(s).Good? ==> Value(s).rest == s[|s| - |Value(s).rest|..]
    decreases |s|
  {
    if |s| > 1 {
      ValueSuffix(s[1..]);
      ValueSuffix(s[2..]);
    }
  }

  lemma {:induction false} ParamsSuffix(s: seq<byte>)
    ensures Params(s).Good? ==> Params(s).rest == s[|s| - |Params(s).rest|..]
    decreases |s|
  {
    if Params(s).Good? && s[0] != CLOSE {
      var name := Until(if s[0] == SP then s[1..] else s, EQUALS);
      var v := Value(name.rest[1..]);
      ValueSuffix(name.rest[1..]);
      ParamsSuffix(v.rest);
    }
  }

  // ---------------------------------------------------------------------------------------------
  // Messages of the old form
  // ---------------------------------------------------------------------------------------------

  /** A message with a stamp of the first layout, up to its text. */
  function PlainText(priority: nat, stamp: seq<byte>, host: seq<byte>, tag: seq<byte>, t: seq<byte>): seq<byte> {
    [60] + (D.Decimal(priority) + ([62] + (stamp + ([SP] + (host + ([SP] + (tag + ([COLON] + t))))))))
  }

  /** The parser takes `stamp` as a time of the first layout, and the message for one of the old form. */
  predicate StampOk(pt: TimeParser, stamp: seq<byte>) {
    |stamp| == LAYOUTS[0] && pt(0, stamp).Some? && !(stamp[0] == 49 && stamp[1] == SP)
  }

  lemma PriorityReads(priority: nat, t: seq<byte>)
    requires priority < TWO_63
    ensures Priority([60] + (D.Decimal(priority) + ([62] + t))) == Good(priority, t)
  {
    var text := D.Decimal(priority);
    D.DecimalReads(priority);
    DigitsOnly(text);
    assert ([60] + (text + ([62] + t)))[1..] == text + ([62] + t);
    hide D.Decimal, D.Number, D.AllDigits, Until;
    UntilFinds(text, 62, t);
  }

  lemma DigitsOnly(s: seq<byte>)
    requires D.AllDigits(s)
    ensures 62 !in s && DASH !in s && 43 !in s
  {
  }

  lemma PlainHeadReads(pt: TimeParser, stamp: seq<byte>, host: seq<byte>, tag: seq<byte>, t: seq<byte>)
    requires StampOk(pt, stamp) && SP !in host && COLON !in tag
    ensures PlainHead(pt, stamp + ([SP] + (host + ([SP] + (tag + ([COLON] + t))))))
         == match TagAndPid(tag)
            case None => Crash
            case Some((name, pid)) => Good(Plain(pt(0, stamp).value, host, name, pid), t)
  {
    var u := host + ([SP] + (tag + ([COLON] + t)));
    var s := stamp + ([SP] + u);
    assert s[..15] == stamp && s[15..] == [SP] + u && ([SP] + u)[1..] == u;
    assert Sample(s, 0) == stamp;
    assert Stamp(pt, s, 0) == Good(pt(0, stamp).value, [SP] + u);
    hide Stamp, TagAndPid, Until;
    UntilFinds(host, SP, tag + ([COLON] + t));
    UntilFinds(tag, COLON, t);
  }

  /** The head of a message of the old form is read back as what it says. */
  lemma PlainReads(
    pt: TimeParser, priority: nat, stamp: seq<byte>, host: seq<byte>, tag: seq<byte>, t: seq<byte>)
    requires StampOk(pt, stamp) && SP !in host && COLON !in tag && priority < TWO_63
    ensures Head(pt, PlainText(priority, stamp, host, tag, t))
         == match TagAndPid(tag)
            case None => Crash
            case Some((name, pid)) => Good((priority, Plain(pt(0, stamp).value, host, name, pid)), t)
  {
    var rest := stamp + ([SP] + (host + ([SP] + (tag + ([COLON] + t)))));
    assert |rest| >= 2 && rest[0] == stamp[0] && rest[1] == stamp[1];
    hide Priority, PlainHead, StructuredHead, TagAndPid, D.Decimal;
    PriorityReads(priority, rest);
    PlainHeadReads(pt, stamp, host, tag, t);
  }

  lemma NoPid(tag: seq<byte>)
    requires OPEN !in tag
    ensures TagAndPid(tag) == Some((tag, 0))
  {
  }

  // ---------------------------------------------------------------------------------------------
  // Panics
  // ---------------------------------------------------------------------------------------------

  /** A closing bracket stands before the first opening one. */
  predicate BracketsReversed(text: seq<byte>) {
    Seqs.IndexOf(text, OPEN) >= 0 && CLOSE in text[..Seqs.IndexOf(text, OPEN)]
  }

  lemma TagPanics(text: seq<byte>)
    ensures TagAndPid(text) == None <==> BracketsReversed(text)
  {
    hide Atoi;
    if Seqs.IndexOf(text, OPEN) >= 0 { FirstBefore(text, CLOSE, Seqs.IndexOf(text, OPEN)); }
  }

  lemma FirstBefore(text: seq<byte>, d: byte, left: nat)
    requires left <= |text|
    ensures d in text[..left] <==> 0 <= Seqs.IndexOf(text, d) < left
  {
    var r := Seqs.IndexOf(text, d);
    assert forall k | 0 <= k < left :: text[..left][k] == text[k];
  }

  lemma DataPanics(s: seq<byte>)
    ensures Data(s).Crash? <==> s != [] && s[0] == SP
  {
    hide Params;
    if s != [] && s[0] == SP { assert Until(s, SP) == Good([], s[1..]); }
  }

  /** The head of a message of the old form panics on a tag with reversed brackets, ... */
  predicate TagReversed(pt: TimeParser, s: seq<byte>) {
    var start := StampAndHost(pt, s);
    && start.Good? && Until(start.rest, COLON).Good?
    && BracketsReversed(Until(start.rest, COLON).value)
  }

  /** ... and that of one of the new form where the structured data is empty. */
  predicate DataMissing(pt: TimeParser, s: seq<byte>) {
    var start := StampAndHost(pt, s);
    && start.Good? && Words(start.rest).Good?
    && Words(start.rest).rest != [] && Words(start.rest).rest[0] == SP
  }

  lemma PlainPanics(pt: TimeParser, s: seq<byte>)
    ensures PlainHead(pt, s).Crash? <==> TagReversed(pt, s)
  {
    var start := StampAndHost(pt, s);
    if start.Good? && Until(start.rest, COLON).Good? { TagPanics(Until(start.rest, COLON).value); }
    hide StampAndHost, Until, TagAndPid, BracketsReversed;
  }

  lemma StructuredPanics(pt: TimeParser, s: seq<byte>)
    ensures StructuredHead(pt, s).Crash? <==> DataMissing(pt, s)
  {
    var start := StampAndHost(pt, s);
    if start.Good? && Words(start.rest).Good? { DataPanics(Words(start.rest).rest); }
    hide StampAndHost, Words, Data;
  }

  lemma HeadPanics(pt: TimeParser, s: seq<byte>)
    ensures Head(pt, s).Crash? <==>
      var p := Priority(s);
      && p.Good? && |p.rest| >= 2
      && if p.rest[0] == 49 && p.rest[1] == SP then DataMissing(pt, p.rest[2..]) else TagReversed(pt, p.rest)
  {
    var p := Priority(s);
    hide Priority, StructuredHead, PlainHead, DataMissing, TagReversed;
    if p.Good? && |p.rest| >= 2 {
      StructuredPanics(pt, p.rest[2..]);
      PlainPanics(pt, p.rest);
    }
  }

  /** When the parser panics: on a tag with reversed brackets, on empty structured data, and, once the message
      is complete, on a priority beyond its tables. */
  lemma PanicsExactly(pt: TimeParser, s: seq<byte>, total: int, arrives: Arrival)
    ensures Parse(pt, s, total, arrives).Crash? <==>
      var p := Priority(s);
      && p.Good? && |p.rest| >= 2
      && var structured := p.rest[0] == 49 && p.rest[1] == SP;
      && ((structured && DataMissing(pt, p.rest[2..]))
          || (!structured && TagReversed(pt, p.rest))
          || (var h := Head(pt, s);
              h.Good? && Text(h.rest, total - (|s| - |h.rest|), arrives).Good? && NoSuchPriority(h.value.0)))
  {
    HeadPanics(pt, s);
    HeadHasPriority(pt, s);
    hide Priority, Head, DataMissing, TagReversed, Text, NoSuchPriority;
  }

  lemma HeadHasPriority(pt: TimeParser, s: seq<byte>)
    ensures Head(pt, s).Good? ==> Priority(s).Good? && |Priority(s).rest| >= 2
  {
    hide Priority, StructuredHead, PlainHead;
  }

  lemma LineIs(text: seq<byte>, more: seq<byte>, left: int, arrives: Arrival)
    requires NL !in text && left <= 0
    ensures Text(text + ([NL] + more), left, arrives) == Good(text + [NL], more)
  {
    UntilFinds(text, NL, more);
    hide Until;
  }

  /** An input for each: a complete message of priority 8, such as a user process sends in an emergency, ... */
  lemma UserEmergencyPanics(
    pt: TimeParser, stamp: seq<byte>, host: seq<byte>, tag: seq<byte>, text: seq<byte>, more: seq<byte>,
    arrives: Arrival)
    requires StampOk(pt, stamp) && SP !in host && COLON !in tag && OPEN !in tag && NL !in text
    ensures Parse(pt, PlainText(8, stamp, host, tag, text + ([NL] + more)), 0, arrives) == Crash
  {
    hide PlainText, Head, TagAndPid, StampOk, Text, Until;
    PlainReads(pt, 8, stamp, host, tag, text + ([NL] + more));
    NoPid(tag);
    var s := PlainText(8, stamp, host, tag, text + ([NL] + more));
    LineIs(text, more, 0 - (|s| - |Head(pt, s).rest|), arrives);
    PanickingPriorities(8);
  }

  /** ... one of any priority with the tag `][`, ... */
  lemma ReversedTagPanics(
    pt: TimeParser, priority: nat, stamp: seq<byte>, host: seq<byte>, t: seq<byte>, total: int, arrives: Arrival)
    requires StampOk(pt, stamp) && SP !in host && priority < TWO_63
    ensures Parse(pt, PlainText(priority, stamp, host, [CLOSE, OPEN], t), total, arrives) == Crash
  {
    PlainReads(pt, priority, stamp, host, [CLOSE, OPEN], t);
    TagPanics([CLOSE, OPEN]);
    assert Seqs.IndexOf([CLOSE, OPEN], OPEN) == 1 && [CLOSE, OPEN][..1] == [CLOSE];
    hide PlainText, Head, TagAndPid, StampOk, Text;
  }

  /** ... and structured data that starts with a space. */
  lemma SpaceForDataPanics(t: seq<byte>)
    ensures Data([SP] + t) == Crash
  {
    DataPanics([SP] + t);
    hide Data;
  }

  /** An input for the second half of `CountedIsExact`: with a count that the head already uses up, the message
      goes on to the next newline, wherever that is. */
  lemma CountTooSmall(
    pt: TimeParser, priority: nat, stamp: seq<byte>, host: seq<byte>, tag: seq<byte>, text: seq<byte>,
    more: seq<byte>, total: nat, arrives: Arrival)
    requires StampOk(pt, stamp) && SP !in host && COLON !in tag && OPEN !in tag && NL !in text
    requires priority < TWO_63 && !NoSuchPriority(priority)
    requires total <= |PlainText(priority, stamp, host, tag, [])|
    ensures var s := PlainText(priority, stamp, host, tag, text + ([NL] + more));
            && Parse(pt, s, total, arrives).Good? && Parse(pt, s, total, arrives).rest == more
            && |s| - |more| >= total + |text| + 1
  {
    var t := text + ([NL] + more);
    var s := PlainText(priority, stamp, host, tag, t);
    assert |s| == |PlainText(priority, stamp, host, tag, [])| + |t|;
    hide PlainText, Head, TagAndPid, StampOk, Text, NoSuchPriority, Until;
    PlainReads(pt, priority, stamp, host, tag, t);
    NoPid(tag);
    LineIs(text, more, total - (|s| - |t|), arrives);
  }
}
