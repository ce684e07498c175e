/** Lines of files and the offsets at which reading resumes. */
module Lines {

  import opened Bits
  import Seqs

  const NEWLINE: byte := 10

  /** A complete line, its newline included, and where it starts. */
  datatype Line = Line(text: seq<byte>, offset: nat) {
    /** `Line.Next`. */
    function Next(): nat {
      offset + |text|
    }
  }

  /** Behind the first newline from `o` on; 0 if there is none. */
  function LineEnd(content: seq<byte>, o: nat): (e: nat)
    ensures e == 0 || o < e <= |content|
    decreases if o <= |content| then |content| - o else 0
  {
    if o >= |content| then 0 else if content[o] == NEWLINE then o + 1 else LineEnd(content, o + 1)
  }

  /** The complete lines from `o` on, as `ReadString` delivers them after a seek to `o`. */
  function LinesFrom(content: seq<byte>, o: nat): seq<Line>
    decreases if o <= |content| then |content| - o else 0
  {
    var e := LineEnd(content, o);
    if e == 0 then [] else [Line(content[o..e], o)] + LinesFrom(content, e)
  }

  /** The offset behind `k` lines. */
  function Boundary(content: seq<byte>, o: nat, k: nat): nat
    decreases k
  {
    var e := LineEnd(content, o);
    if k == 0 || e == 0 then o else Boundary(content, e, k - 1)
  }

  // ---------------------------------------------------------------------------------------------
  // What the lines are
  // ---------------------------------------------------------------------------------------------

  /** One newline, at the end. */
  predicate IsLine(s: seq<byte>) {
    s != [] && s[|s| - 1] == NEWLINE && NEWLINE !in s[..|s| - 1]
  }

  lemma {:induction false} LineEndIs(content: seq<byte>, o: nat)
    requires o <= |content|
    ensures LineEnd(content, o) > 0 ==> IsLine(content[o..LineEnd(content, o)])
    ensures LineEnd(content, o) == 0 ==> NEWLINE !in content[o..]
    decreases |content| - o
  {
    if o < |content| && content[o] != NEWLINE {
      var e := LineEnd(content, o);
      LineEndIs(content, o + 1);
      assert content[o..] == [content[o]] + content[o + 1..];
      if e > 0 {
        var s, t := content[o..e], content[o + 1..e];
        assert s == [content[o]] + t;
        assert s[..|s| - 1] == [content[o]] + t[..|t| - 1];
      }
    }
  }

  function Texts(ls: seq<Line>): seq<byte> {
    if ls == [] then [] else ls[0].text + Texts(ls[1..])
  }

  /** The lines tile the file from `o` on, each is one line, and no newline is left behind them. */
  lemma {:induction false} LinesTile(content: seq<byte>, o: nat)
    requires o <= |content|
    ensures var ls := LinesFrom(content, o); var e := Boundary(content, o, |ls|);
            && o <= e <= |content| && Texts(ls) == content[o..e] && NEWLINE !in content[e..]
            && forall i | 0 <= i < |ls| :: IsLine(ls[i].text)
    decreases |content| - o
  {
    var e := LineEnd(content, o);
    LineEndIs(content, o);
    if e > 0 {
      LinesTile(content, e);
      hide LineEnd, IsLine;
      var rest := LinesFrom(content, e);
      assert LinesFrom(content, o)[1..] == rest;
      Seqs.Split(content, o, e, Boundary(content, e, |rest|));
    }
  }

  /** Each offset is where the line before it ends. */
  lemma {:induction false} NextIsBoundary(content: seq<byte>, o: nat, k: nat)
    requires k < |LinesFrom(content, o)|
    ensures LinesFrom(content, o)[k].offset == Boundary(content, o, k)
    ensures LinesFrom(content, o)[k].Next() == Boundary(content, o, k + 1)
    decreases k
  {
    var e := LineEnd(content, o);
    assert LinesFrom(content, o)[1..] == LinesFrom(content, e);
    if k > 0 {
      NextIsBoundary(content, e, k - 1);
    } else {
      assert Boundary(content, e, 0) == e;
    }
  }

  // ---------------------------------------------------------------------------------------------
  // Resuming
  // ---------------------------------------------------------------------------------------------

  lemma {:induction false} Resume(content: seq<byte>, o: nat, k: nat)
    requires k <= |LinesFrom(content, o)|
    ensures LinesFrom(content, Boundary(content, o, k)) == LinesFrom(content, o)[k..]
    decreases k
  {
    if k > 0 {
      var e := LineEnd(content, o);
      Resume(content, e, k - 1);
      assert LinesFrom(content, o)[1..] == LinesFrom(content, e);
    }
  }

  lemma {:induction false} LineEndGrows(content: seq<byte>, more: seq<byte>, o: nat)
    requires LineEnd(content, o) > 0
    ensures LineEnd(content + more, o) == LineEnd(content, o)
    decreases |content| - o
  {
    if content[o] != NEWLINE {
      LineEndGrows(content, more, o + 1);
    }
  }

  /** Complete lines stay what they are when the file grows. */
  lemma {:induction false} Grows(content: seq<byte>, more: seq<byte>, o: nat, k: nat)
    requires k <= |LinesFrom(content, o)|
    ensures k <= |LinesFrom(content + more, o)| && LinesFrom(content + more, o)[..k] == LinesFrom(content, o)[..k]
    ensures Boundary(content + more, o, k) == Boundary(content, o, k)
    decreases k
  {
    if k > 0 {
      var e := LineEnd(content, o);
      LineEndGrows(content, more, o);
      Grows(content, more, e, k - 1);
      var a, b := LinesFrom(content, o), LinesFrom(content + more, o);
      assert content[o..e] == (content + more)[o..e];
      assert a[..k] == [a[0]] + a[1..][..k - 1] && b[..k] == [b[0]] + b[1..][..k - 1];
    }
  }

  /** After `k` lines of a file have been delivered, a restart at the offset behind them delivers from the
      grown file exactly the lines that are missing. */
  lemma RestartDelivers(content: seq<byte>, more: seq<byte>, o: nat, k: nat)
    requires k <= |LinesFrom(content, o)|
    ensures LinesFrom(content, o)[..k] + LinesFrom(content + more, Boundary(content, o, k))
         == LinesFrom(content + more, o)
  {
    Grows(content, more, o, k);
    Resume(content + more, o, k);
    hide LinesFrom, Boundary;
  }

  /** One session: the file as it was then, and how many of its lines were delivered before the stop. */
  datatype Session = Session(content: seq<byte>, delivered: nat)

  /** Sessions on a file that only grows, each from the offset the one before has stored. */
  predicate IsHistory(ss: seq<Session>, o: nat)
    decreases |ss|
  {
    ss == [] ||
      (&& ss[0].delivered <= |LinesFrom(ss[0].content, o)|
       && (|ss| > 1 ==> ss[0].content <= ss[1].content)
       && IsHistory(ss[1..], Boundary(ss[0].content, o, ss[0].delivered)))
  }

  /** Everything that the sessions deliver. */
  function Delivered(ss: seq<Session>, o: nat): seq<Line>
    requires IsHistory(ss, o)
    decreases |ss|
  {
    if ss == [] then []
    else LinesFrom(ss[0].content, o)[..ss[0].delivered]
         + Delivered(ss[1..], Boundary(ss[0].content, o, ss[0].delivered))
  }

  lemma {:induction false} HistoryGrows(ss: seq<Session>, o: nat)
    requires IsHistory(ss, o) && ss != []
    ensures ss[0].content <= ss[|ss| - 1].content
    decreases |ss|
  {
    if |ss| > 1 {
      HistoryGrows(ss[1..], Boundary(ss[0].content, o, ss[0].delivered));
    }
  }

  /** Over any number of stops and restarts every line is delivered once, in order: together the sessions
      deliver the first lines of the file as it is at last. */
  lemma {:induction false} NothingLostOrRepeated(ss: seq<Session>, o: nat)
    requires IsHistory(ss, o) && ss != []
    ensures Delivered(ss, o) <= LinesFrom(ss[|ss| - 1].content, o)
    decreases |ss|
  {
    var content, k := ss[0].content, ss[0].delivered;
    var final := ss[|ss| - 1].content;
    HistoryGrows(ss, o);
    var more := final[|content|..];
    assert content + more == final;
    RestartDelivers(content, more, o, k);
    if |ss| > 1 {
      var e := Boundary(content, o, k);
      NothingLostOrRepeated(ss[1..], e);
      hide LinesFrom, Boundary, IsHistory;
      PrefixAppend(LinesFrom(content, o)[..k], Delivered(ss[1..], e), LinesFrom(final, e));
    } else {
      assert ss[1..] == [];
      Seqs.Nil(LinesFrom(content, o)[..k]);
      Grows(content, [], o, k);
    }
  }

  lemma PrefixAppend<T>(a: seq<T>, b: seq<T>, c: seq<T>)
    requires b <= c
    ensures a + b <= a + c
  {
  }

  // ---------------------------------------------------------------------------------------------
  // Reading one file
  // ---------------------------------------------------------------------------------------------

  /** `File` on a file with these contents.  `lines` is what its reader has sent and nobody has taken yet. */
  class File {
    const content: seq<byte>
    const offset: nat
    var lines: seq<Line>
    var lastOffset: nat
    ghost var taken: nat

    constructor (content: seq<byte>, offset: nat)
      ensures this.content == content && this.offset == offset && lines == [] && taken == 0 && lastOffset == 0
    {
      this.content, this.offset, lines, lastOffset, taken := content, offset, [], 0, 0;
    }

    /** `readOnce`, which may be told to die at any line. */
    method ReadOnce() returns (finished: bool)
      requires lines == [] && taken == 0
      modifies `lines
      ensures lines <= LinesFrom(content, offset)
      ensures finished ==> lines == LinesFrom(content, offset)
    {
      hide LineEnd;
      var at := offset;
      while true
        invariant lines + LinesFrom(content, at) == LinesFrom(content, offset)
        decreases if at <= |content| then |content| - at else 0
      {
        var e := LineEnd(content, at);
        if e == 0 {
          return true;
        }
        var dying := *;
        if dying {
          return false;
        }
        var str := content[at..e];
        Seqs.Assoc(lines, [Line(str, at)], LinesFrom(content, e));
        lines := lines + [Line(str, at)];
        at := at + |str|;
      }
    }

    /** `GenerateLine` and `Generate`: the offset behind the line is remembered. */
    method Generate() returns (line: Line)
      requires lines != [] && taken + |lines| <= |LinesFrom(content, offset)|
      requires lines == LinesFrom(content, offset)[taken..taken + |lines|]
      modifies `lines, `lastOffset, `taken
      ensures line == LinesFrom(content, offset)[old(taken)] && taken == old(taken) + 1
      ensures lines == old(lines)[1..] && lines == LinesFrom(content, offset)[taken..taken + |lines|]
      ensures lastOffset == Boundary(content, offset, taken)
    {
      NextIsBoundary(content, offset, taken);
      hide LinesFrom, Boundary;
      line := lines[0];
      lines := lines[1..];
      lastOffset := line.offset + |line.text|;
      taken := taken + 1;
    }
  }
}
