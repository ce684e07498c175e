/** Printing messages in the key=value format. */
module KvText {

  import opened Wrappers
  import opened Bits
  import opened Messages
  import opened Decimals
  import opened Symbols

  /** What the format takes from elsewhere: TAI64N labels, and floats in decimal.  `unstamp` is
      `ParseTAI64NLabel`; `parseFloat` and `formatFloat` work on the bits of a float. */
  datatype Notations = Notations(
    stamp: Interval -> seq<byte>,
    unstamp: seq<byte> -> Option<Interval>,
    parseFloat: seq<byte> -> Option<nat>,
    formatFloat: nat -> seq<byte>)

  const LOG := 0
  const METRIC := 1
  const TRACE := 2
  const AUDIT := 3
  const HEARTBEAT := 4

  const QUOTE: byte := 34
  const BACKSLASH: byte := 92
  const SPACE: byte := 32
  const NEWLINE: byte := 10

  /** `strconv.FormatInt(x, 10)`. */
  function FormatInt(x: int): seq<byte> {
    if x < 0 then [45] + Decimal(-x) else Decimal(x)
  }

  /** `strquote`. */
  function Quoted(s: seq<byte>): seq<byte> {
    if s == [] then []
    else if s[0] == QUOTE then [BACKSLASH, QUOTE] + Quoted(s[1..])
    else [s[0]] + Quoted(s[1..])
  }

  /** `Attribute.StringKey`; `None` is a panic: only versions 0 and 1 have a table. */
  function StringKey(version: int, a: Attribute): Option<seq<byte>> {
    if a.key != 0 then if 0 <= version <= 1 then NameOf(V1, a.key) else None
    else if a.skey.None? then Some([60, 110, 105, 108, 62])
    else a.skey
  }

  /** An attribute's value: the first kind that is set. */
  function ValueText(n: Notations, a: Attribute): Option<seq<byte>> {
    if a.ival.Some? then Some(FormatInt(a.ival.value))
    else if a.fval.Some? then Some(n.formatFloat(a.fval.value))
    else if a.boolval.Some? then Some(if a.boolval.value then [116, 114, 117, 101] else [102, 97, 108, 115, 101])
    else if a.sval.Some? then Some([QUOTE] + Quoted(a.sval.value) + [QUOTE])
    else if a.bval.Some? then Some([QUOTE] + Quoted(a.bval.value) + [QUOTE])
    else if a.tval.Some? then
      match Subsecond(a.tval.value.nanoseconds)
      case None => None
      case Some(fraction) => Some([58] + FormatInt(ToSigned(a.tval.value.seconds, TWO_64)) + [46] + fraction)
    else Some([])
  }

  function PairText(n: Notations, version: int, a: Attribute): Option<seq<byte>> {
    match StringKey(version, a)
    case None => None
    case Some(key) =>
      match ValueText(n, a)
      case None => None
      case Some(value) => Some([SPACE] + key + [61] + value)
  }

  /** `KVPairsInto`. */
  function PairsText(n: Notations, version: int, s: seq<Attribute>): Option<seq<byte>> {
    if s == [] then Some([])
    else match PairText(n, version, s[0])
         case None => None
         case Some(head) =>
           match PairsText(n, version, s[1..])
           case None => None
           case Some(rest) => Some(head + rest)
  }

  /** One tag of a list; a tag with a value is followed by a space unless it is the last one. */
  function TagText(t: Tag, last: bool): seq<byte> {
    if t.value.None? then [33] + t.name
    else t.name + [61, QUOTE] + Quoted(t.value.value) + [QUOTE] + if last then [] else [SPACE]
  }

  function TagListText(s: seq<Tag>): seq<byte> {
    if s == [] then [] else TagText(s[0], |s| == 1) + TagListText(s[1..])
  }

  /** `KVTagsInto`. */
  function TagsText(s: seq<Tag>): seq<byte> {
    if s == [] then [] else [SPACE, 91] + TagListText(s) + [93]
  }

  function TypeText(typ: Option<nat>): seq<byte> {
    if typ == Some(METRIC) then [33, SPACE]
    else if typ == Some(TRACE) then [36, SPACE]
    else if typ == Some(AUDIT) then [42, SPACE]
    else if typ == Some(HEARTBEAT) then [63, SPACE]
    else [SPACE]
  }

  function SessionText(session: Option<seq<byte>>): seq<byte> {
    if session.Some? && session.value != [] then [SPACE, BACKSLASH] + session.value else []
  }

  /** `KVString`; `None` is a panic. */
  function KvString(n: Notations, m: Message): Option<seq<byte>> {
    if m.timestamp.None? then None
    else match PairsText(n, m.version, m.attributes)
         case None => None
         case Some(pairs) =>
           Some([62] + TypeText(m.typ) + n.stamp(m.timestamp.value) + SessionText(m.session) + TagsText(m.tags) + pairs)
  }

  // ---------------------------------------------------------------------------------------------
  // The printing code
  // ---------------------------------------------------------------------------------------------

  /** `bytes.Buffer`. */
  class Buffer {
    var text: seq<byte>

    constructor ()
      ensures text == []
    {
      text := [];
    }

    method Write(s: seq<byte>)
      modifies this
      ensures text == old(text) + s
    {
      text := text + s;
    }

    method TagInto(t: Tag, last: bool)
      modifies this
      ensures text == old(text) + TagText(t, last)
    {
      hide Quoted;
      if t.value.None? {
        Write([33]);
        Write(t.name);
      } else {
        Write(t.name);
        Write([61]);
        Write([QUOTE]);
        Write(Quoted(t.value.value));
        Write([QUOTE]);
        if !last {
          Write([SPACE]);
        }
      }
    }

    /** The loop over the tags. */
    method TagListInto(tags: seq<Tag>)
      modifies this
      ensures text == old(text) + TagListText(tags)
    {
      hide TagText;
      ghost var start := text;
      var i := 0;
      while i < |tags|
        invariant 0 <= i <= |tags|
        invariant text + TagListText(tags[i..]) == start + TagListText(tags)
      {
        assert tags[i..][1..] == tags[i + 1..];
        TextStep(text, tags[i..]);
        TagInto(tags[i], i == |tags| - 1);
        i := i + 1;
      }
      assert tags[i..] == [];
    }

    method TagsInto(tags: seq<Tag>)
      modifies this
      ensures text == old(text) + TagsText(tags)
    {
      hide TagListText;
      if |tags| > 0 {
        Write([SPACE, 91]);
        TagListInto(tags);
        Write([93]);
      }
    }

    /** `KVPairsInto`; on a panic nothing is promised about the buffer. */
    method PairsInto(n: Notations, version: int, s: seq<Attribute>) returns (ok: bool)
      modifies this
      ensures ok <==> PairsText(n, version, s).Some?
      ensures ok ==> text == old(text) + PairsText(n, version, s).value
    {
      hide StringKey, ValueText;
      ghost var start := text;
      var i := 0;
      while i < |s|
        invariant 0 <= i <= |s|
        invariant PairsText(n, version, s).Some? <==> PairsText(n, version, s[i..]).Some?
        invariant PairsText(n, version, s).Some? ==>
          text + PairsText(n, version, s[i..]).value == start + PairsText(n, version, s).value
      {
        assert s[i..][1..] == s[i + 1..];
        var key := StringKey(version, s[i]);
        if key.None? {
          return false;
        }
        var value := ValueText(n, s[i]);
        if value.None? {
          return false;
        }
        Write([SPACE] + key.value + [61] + value.value);
        i := i + 1;
      }
      assert s[i..] == [];
      return true;
    }

    method SessionInto(session: Option<seq<byte>>)
      modifies this
      ensures text == old(text) + SessionText(session)
    {
      if session.Some? && |session.value| > 0 {
        Write([SPACE, BACKSLASH]);
        Write(session.value);
      }
    }

    /** `KVStringInto`. */
    method StringInto(n: Notations, m: Message) returns (ok: bool)
      modifies this
      ensures ok <==> KvString(n, m).Some?
      ensures ok ==> text == old(text) + KvString(n, m).value
    {
      hide TagsText, PairsText, TypeText, SessionText;
      if m.timestamp.None? {
        return false;
      }
      Write([62]);
      Write(TypeText(m.typ));
      Write(n.stamp(m.timestamp.value));
      SessionInto(m.session);
      TagsInto(m.tags);
      ok := PairsInto(n, m.version, m.attributes);
    }
  }

  lemma TextStep(text: seq<byte>, tags: seq<Tag>)
    requires tags != []
    ensures text + TagListText(tags) == text + TagText(tags[0], |tags| == 1) + TagListText(tags[1..])
  {
  }
}
