/** What every run of the transport keeps: every accepted message is accounted for, acks are attributed to
    decoded messages, credits are conserved, a waiting sender can always be woken, and close tokens never go
    missing.  As long as no ack cuts a walk over the in-flight list short, nothing is dropped or reordered. */
module TransportSafety {

  import opened MessageOrder
  import opened Transport

  // ---------------------------------------------------------------------------------------------
  // Invariants
  // ---------------------------------------------------------------------------------------------

  /** Ack attribution: the messages popped by acks are a prefix of the decoded ones, those a prefix of
      the sent ones, and every ack byte stands for a decoded message that is still in flight. */
  predicate Attributed(c: Conn) {
    && c.sent == c.acked + c.reqs
    && c.decoded + c.wire + c.buffered <= c.sent
    && |c.acked| + c.taken + c.acks <= |c.decoded|
    && (!c.dead ==> |c.acked| + c.taken + c.acks == |c.decoded|)
  }

  /** Credit conservation. */
  predicate Credited(c: Conn) {
    && c.window >= 1
    && c.available >= 0
    && c.available + |c.reqs| + c.popped == c.window
  }

  /** A connection emits its close token exactly when it closes. */
  predicate ConnInv(c: Conn) {
    && Attributed(c)
    && Credited(c)
    && c.tokens == (if c.closed then 1 else 0)
    && (!c.closed ==> c.readerAlive)
  }

  /** No write failed: all that was sent is decoded, on the wire or in the encoder. */
  predicate Whole(c: Conn) {
    c.decoded + c.wire + c.buffered == c.sent
  }

  /** What the resend loop of `reconnect` still has to send. */
  function Remaining(pc: Control): seq<Msg> {
    match pc
    case Resending(rem) => rem
    case ResendWaiting(rem) => rem
    case Nacking(_, rem, _) => rem
    case _ => []
  }

  function Max(a: nat, b: nat): nat {
    if a <= b then b else a
  }

  /** What a walk at `cursor` would still nack if no further ack came. */
  function Ahead(c: Conn, cursor: Cursor): seq<Msg>
    requires !cursor.Begin? ==> cursor.at < |c.sent|
    requires |c.acked| <= |c.sent|
  {
    match cursor
    case Begin => c.reqs
    case At(i) => [c.sent[i]] + c.sent[Max(i + 1, |c.acked|)..]
    case Left(i) => c.sent[Max(i + 1, |c.acked|)..]
  }

  /** The messages that count as outstanding: in flight on the open connection, and not nacked yet by a walk. */
  function InFlight(s: State): seq<Msg>
    requires CursorInv(s)
  {
    if s.conn.closed then [] else if s.pc.Nacking? then Ahead(s.conn, s.pc.cursor) else s.conn.reqs
  }

  /** The messages the sender still holds: nacked, in flight, and in `reconnect` those not resent yet. */
  function Held(s: State): seq<Msg>
    requires CursorInv(s)
  {
    s.nacked + InFlight(s) + Remaining(s.pc)
  }

  /** A walk stands on a message of the open connection, and has nacked it when it is about to leave it. */
  predicate CursorInv(s: State) {
    && |s.conn.acked| <= |s.conn.sent|
    && (s.pc.Nacking? ==>
          && !s.conn.closed
          && (!s.pc.cursor.Begin? ==> s.pc.cursor.at < |s.conn.sent|)
          && (s.pc.cursor.Left? ==> s.conn.sent[s.pc.cursor.at] in s.nacked)
          && (!s.pc.resending ==> s.pc.rem == []))
  }

  /** A connection in good order: its own invariant, and what it sent was accepted, in this order. */
  predicate Good(c: Conn, accepted: seq<Msg>) {
    ConnInv(c) && StrictlyIncreasing(c.sent) && forall m | m in c.sent :: m in accepted
  }

  predicate Conns(s: State) {
    && Good(s.conn, s.accepted)
    && (forall i | 0 <= i < |s.past| :: Good(s.past[i], s.accepted) && s.past[i].closed)
  }

  /** Some peer returned `m` from its `Generate`. */
  predicate Seen(s: State, m: Msg) {
    m in s.conn.decoded || exists i | 0 <= i < |s.past| :: m in s.past[i].decoded
  }

  predicate AllSeen(s: State) {
    forall m | m in s.resolved :: Seen(s, m)
  }

  /** The books balance: an accepted message is held, resolved or dropped, and only one of them. */
  predicate Books(s: State)
    requires CursorInv(s)
  {
    && StrictlyIncreasing(s.accepted)
    && StrictlyIncreasing(Held(s))
    && multiset(s.accepted) == multiset(Held(s)) + multiset(s.resolved) + multiset(s.dropped)
    && (!s.conn.closed && !s.pc.Nacking? ==> s.nacked == [])
    && (!s.conn.closed ==> StrictlyIncreasing(s.conn.sent + Remaining(s.pc)))
    && AllSeen(s)
  }

  /** The messages `c` sent are the ones accepted as numbers `base`, `base + 1`, ... */
  predicate Contiguous(c: Conn, accepted: seq<Msg>) {
    c.base + |c.sent| <= |accepted| && c.sent == accepted[c.base..c.base + |c.sent|]
  }

  /** What holds as long as no walk was cut short: the resolved messages and the held ones are the
      accepted ones, in order, and each connection carries a block of them. */
  predicate Ordered(s: State)
    requires CursorInv(s)
  {
    && s.dropped == []
    && s.accepted == s.resolved + Held(s)
    && (!s.conn.closed && !s.pc.Nacking? ==> |s.resolved| == s.conn.base + |s.conn.acked|)
    && (s.pc.Nacking? && s.pc.cursor.Begin? ==> s.nacked == [])
    && (Detached(s) ==> s.conn.reqs == [])
    && Contiguous(s.conn, s.accepted)
    && (forall i | 0 <= i < |s.past| :: Contiguous(s.past[i], s.accepted))
  }

  /** Some message was acked before an older one that is still held or was acked later. */
  predicate Inverted(resolved: seq<Msg>, held: seq<Msg>) {
    exists p, m | 0 <= p < |resolved| && m in resolved[p + 1..] + held :: Before(m, resolved[p])
  }

  /** What holds after a walk was cut short: the walk is not over, or messages were dropped, or overtaken. */
  predicate Scarred(s: State)
    requires CursorInv(s)
  {
    (Detached(s) && s.conn.reqs != []) || s.dropped != [] || Inverted(s.resolved, Held(s))
  }

  predicate History(s: State)
    requires CursorInv(s)
  {
    Books(s) && (if s.cuts == 0 then Ordered(s) else Scarred(s))
  }

  /** The one-slot channel holds a token exactly while a closed connection has not been taken up. */
  predicate TokenInv(s: State) {
    && s.tokens == (if s.conn.closed && !s.pc.Reconnecting? then 1 else 0)
    && (s.pc.Reconnecting? ==> s.conn.closed)
  }

  predicate ControlInv(s: State) {
    && (s.pc.Resending? ==> s.pc.rem != [])
    && ((s.pc.Idle? || s.pc.Resending?) && !s.conn.closed ==> s.conn.available >= 1)
    && (!s.conn.closed && !s.pc.Nacking? ==> Whole(s.conn))
    && ((s.pc.Waiting? || s.pc.ResendWaiting?) && !s.conn.dead && !s.conn.closed ==> s.conn.buffered == [])
  }

  predicate CounterInv(s: State)
    requires CursorInv(s)
  {
    && s.outstanding + s.late == |InFlight(s)| + |s.dropped| + s.missed
    && s.missed >= 0 && (s.loaded.Some? ==> s.pc.Resending? && s.outstanding <= s.loaded.value)
  }

  predicate Inv(s: State) {
    Conns(s) && CursorInv(s) && History(s) && TokenInv(s) && ControlInv(s) && CounterInv(s)
  }

  lemma InitInv(window: nat)
    requires window >= 1
    ensures Inv(Init(window))
  {
  }

  // ---------------------------------------------------------------------------------------------
  // Lists
  // ---------------------------------------------------------------------------------------------

  /** Taking a stretch out of an increasing list. */
  lemma Removing(a: seq<Msg>, x: seq<Msg>, b: seq<Msg>)
    requires StrictlyIncreasing(a + x + b)
    ensures StrictlyIncreasing(a + b)
    ensures multiset(a + x + b) == multiset(a + b) + multiset(x)
  {
    var whole, rest := a + x + b, a + b;
    forall i, j | 0 <= i < j < |rest|
      ensures Before(rest[i], rest[j])
    {
      var i1, j1 := if i < |a| then i else i + |x|, if j < |a| then j else j + |x|;
      assert whole[i1] == rest[i] && whole[j1] == rest[j];
    }
  }

  /** An overtaken message stays overtaken when it is acked itself. */
  lemma InvertedMoves(resolved: seq<Msg>, a: seq<Msg>, x: Msg, b: seq<Msg>)
    requires Inverted(resolved, a + [x] + b)
    ensures Inverted(resolved + [x], a + b)
  {
    var p, m :| 0 <= p < |resolved| && m in resolved[p + 1..] + (a + [x] + b) && Before(m, resolved[p]);
    var longer := resolved + [x];
    assert longer[p] == resolved[p] && longer[p + 1..] == resolved[p + 1..] + [x];
    assert m in longer[p + 1..] + (a + b);
  }

  /** Acking `y` overtakes an older message that is held. */
  lemma InvertedByAck(resolved: seq<Msg>, y: Msg, held: seq<Msg>, x: Msg)
    requires x in held && Before(x, y)
    ensures Inverted(resolved + [y], held)
  {
    var longer := resolved + [y];
    assert longer[|resolved|] == y && Before(x, longer[|resolved|]);
  }

  lemma InvertedGrows(resolved: seq<Msg>, held: seq<Msg>, m: Msg)
    requires Inverted(resolved, held)
    ensures Inverted(resolved, held + [m])
  {
    var p, x :| 0 <= p < |resolved| && x in resolved[p + 1..] + held && Before(x, resolved[p]);
    assert x in resolved[p + 1..] + (held + [m]);
  }

  // ---------------------------------------------------------------------------------------------
  // Preservation
  // ---------------------------------------------------------------------------------------------

  /** Replacing connections by later versions of themselves keeps what the peers have seen. */
  lemma SeenKept(s: State, t: State)
    requires AllSeen(s) && t.resolved == s.resolved && |t.past| == |s.past|
    requires s.conn.decoded <= t.conn.decoded
    requires forall i | 0 <= i < |s.past| :: s.past[i].decoded <= t.past[i].decoded
    ensures AllSeen(t)
  {
    forall m | m in t.resolved
      ensures Seen(t, m)
    {
      assert Seen(s, m);
      if i :| 0 <= i < |s.past| && m in s.past[i].decoded {
        assert m in t.past[i].decoded;
      }
    }
  }

  lemma InvSeen(s: State)
    requires CursorInv(s) && History(s)
    ensures AllSeen(s)
  {
  }

  /** A step that moves no message between the books keeps them. */
  lemma HistoryKept(s: State, t: State)
    requires CursorInv(s) && CursorInv(t) && History(s) && AllSeen(t)
    requires Held(t) == Held(s) && t.nacked == s.nacked && t.pc == s.pc
    requires t.accepted == s.accepted && t.resolved == s.resolved && t.dropped == s.dropped && t.cuts == s.cuts
    requires t.conn.sent == s.conn.sent && t.conn.base == s.conn.base && t.conn.closed == s.conn.closed
    requires |t.past| == |s.past|
    requires forall i | 0 <= i < |s.past| :: t.past[i].sent == s.past[i].sent && t.past[i].base == s.past[i].base
    requires s.conn.closed || s.pc.Nacking? || t.conn.acked == s.conn.acked
    requires Detached(t) ==> t.conn.reqs == [] || (Detached(s) && t.conn.reqs == s.conn.reqs)
    requires Detached(s) && s.conn.reqs != [] ==> Detached(t) && t.conn.reqs != []
    ensures History(t)
  {
    assert Remaining(t.pc) == Remaining(s.pc);
    assert Books(t);
  }

  /** A step that only moves bytes and acks of one connection keeps everything. */
  lemma NetworkStepKeeps(s: State, w: Which, c: Conn)
    requires Inv(s) && Exists(s, w) && ConnInv(c)
    requires var b := Get(s, w);
             && c.window == b.window && c.reqs == b.reqs && c.closed == b.closed && c.acked == b.acked
             && c.sent == b.sent && c.base == b.base && c.available >= b.available
             && b.decoded <= c.decoded && (b.dead ==> c.dead) && (Whole(b) ==> Whole(c))
             && (c.buffered == b.buffered || |c.buffered| < |b.buffered|)
    ensures Inv(Put(s, w, c))
  {
    hide Books, Ordered, Scarred;
    var t := Put(s, w, c);
    InvSeen(s);
    SeenKept(s, t);
    assert InFlight(t) == InFlight(s);
    HistoryKept(s, t);
  }

  lemma PushKeeps(c: Conn, m: Msg, write: Write)
    requires ConnInv(c) && !c.closed && c.available >= 1 && Whole(c)
    ensures ConnInv(Push(c, m, write)) && (write.Done? ==> Whole(Push(c, m, write)))
  {
    var d := Push(c, m, write);
    assert d.sent == d.acked + d.reqs;
    assert d.sent == c.decoded + c.wire + c.buffered + [m];
    if write != Failed(false) {
      assert d.sent == d.decoded + d.wire + d.buffered;
    }
  }

  lemma FlushKeeps(c: Conn, k: nat)
    requires ConnInv(c) && k <= |c.buffered|
    ensures var d := c.(wire := c.wire + c.buffered[..k], buffered := c.buffered[k..]);
            ConnInv(d) && (Whole(c) ==> Whole(d))
  {
    var d := c.(wire := c.wire + c.buffered[..k], buffered := c.buffered[k..]);
    assert c.buffered == c.buffered[..k] + c.buffered[k..];
    assert d.decoded + d.wire + d.buffered == c.decoded + c.wire + c.buffered;
  }

  lemma FlushAllKeeps(c: Conn)
    requires ConnInv(c)
    ensures ConnInv(FlushAll(c)) && (Whole(c) ==> Whole(FlushAll(c)))
  {
    FlushKeeps(c, |c.buffered|);
    assert c.buffered[..|c.buffered|] == c.buffered;
  }

  lemma DecodeKeeps(c: Conn, ackLost: bool)
    requires ConnInv(c) && c.wire != [] && (ackLost ==> c.dead)
    ensures var d := c.(wire := c.wire[1..], decoded := c.decoded + [c.wire[0]],
                        acks := if ackLost then c.acks else c.acks + 1);
            ConnInv(d) && (Whole(c) ==> Whole(d))
  {
    var d := c.(wire := c.wire[1..], decoded := c.decoded + [c.wire[0]]);
    assert c.wire == [c.wire[0]] + c.wire[1..];
    assert d.decoded + d.wire + d.buffered == c.decoded + c.wire + c.buffered;
  }

  /** An ack always finds a message, the oldest one in flight, and the peer has decoded it. */
  lemma AckFindsDecoded(c: Conn)
    requires ConnInv(c) && c.taken > 0
    ensures c.reqs != [] && |c.acked| < |c.decoded| && c.reqs[0] == c.decoded[|c.acked|]
  {
    assert c.sent[|c.acked|] == c.reqs[0];
    assert c.sent[|c.acked|] == c.decoded[|c.acked|];
  }

  /** The connection after its oldest message was removed. */
  function Popped(c: Conn): Conn
    requires c.taken > 0 && c.reqs != []
  {
    c.(taken := c.taken - 1, popped := c.popped + 1, reqs := c.reqs[1..], acked := c.acked + [c.reqs[0]])
  }

  lemma PoppedKeeps(c: Conn)
    requires ConnInv(c) && c.taken > 0 && c.reqs != []
    ensures ConnInv(Popped(c))
  {
    var d := Popped(c);
    assert d.sent == d.acked + d.reqs by { assert c.reqs == [c.reqs[0]] + c.reqs[1..]; }
  }

  lemma LatePopHolds(s: State, w: Which)
    requires Inv(s) && Exists(s, w) && Get(s, w).taken > 0 && Get(s, w).reqs != [] && IsLate(s, w)
    ensures var t := Pop(s, w);
            CursorInv(t) && InFlight(t) == InFlight(s) && Held(t) == Held(s)
  {
    hide Books, Ordered, Scarred;
    assert Pop(s, w).pc == s.pc;
  }

  /** The walk is cut short. */
  lemma CutScars(s: State, t: State)
    requires CursorInv(s) && CursorInv(t) && History(s) && AllSeen(t)
    requires Held(t) == Held(s) && t.nacked == s.nacked && t.pc == s.pc && s.pc.Nacking?
    requires t.accepted == s.accepted && t.resolved == s.resolved && t.dropped == s.dropped && t.cuts > 0
    requires t.conn.sent == s.conn.sent && t.conn.closed == s.conn.closed
    requires Detached(t) && t.conn.reqs != []
    ensures History(t)
  {
    assert Books(t);
  }

  /** An ack of a message that was nacked already changes counters only. */
  lemma LatePopKeeps(s: State, w: Which)
    requires Inv(s) && Exists(s, w) && Get(s, w).taken > 0 && IsLate(s, w)
    ensures Inv(Pop(s, w))
  {
    hide Books, Ordered, Scarred, StrictlyIncreasing, AllSeen, Held, InFlight;
    AckFindsDecoded(Get(s, w));
    PoppedKeeps(Get(s, w));
    LatePopHolds(s, w);
    LatePopHistory(s, w);
  }

  lemma LatePopHistory(s: State, w: Which)
    requires Inv(s) && Exists(s, w) && Get(s, w).taken > 0 && Get(s, w).reqs != [] && IsLate(s, w)
    ensures CursorInv(Pop(s, w)) && History(Pop(s, w))
  {
    hide Books, Ordered, Scarred, StrictlyIncreasing, AllSeen, Held, InFlight, ConnInv;
    var t := Pop(s, w);
    InvSeen(s);
    SeenKept(s, t);
    LatePopHolds(s, w);
    if Cutting(s, w) { CutScars(s, t); } else { HistoryKept(s, t); }
  }

  /** What a walk stands on and has still to nack. */
  function Under(c: Conn, cursor: Cursor): seq<Msg>
    requires !cursor.Begin? ==> cursor.at < |c.sent|
  {
    if cursor.At? then [c.sent[cursor.at]] else []
  }

  lemma AheadPops(c: Conn, cursor: Cursor)
    requires c.sent == c.acked + c.reqs && c.taken > 0 && c.reqs != []
    requires !cursor.Begin? ==> cursor.at < |c.acked|
    ensures Ahead(c, cursor) == Under(c, cursor) + ([c.reqs[0]] + c.reqs[1..])
    ensures Ahead(Popped(c), cursor) == Under(c, cursor) + c.reqs[1..]
  {
    assert c.reqs == [c.reqs[0]] + c.reqs[1..];
    assert c.reqs == c.sent[|c.acked|..] && c.reqs[1..] == c.sent[|c.acked| + 1..];
  }

  /** What is held in front of the oldest message in flight before an ack that is not late, ... */
  function InFront(s: State): seq<Msg>
    requires CursorInv(s)
  {
    s.nacked + if s.pc.Nacking? then Under(s.conn, s.pc.cursor) else []
  }

  /** ... and behind it. */
  function Behind(s: State): seq<Msg>
    requires s.conn.reqs != []
  {
    s.conn.reqs[1..] + Remaining(s.pc)
  }

  lemma Regroup(a: seq<Msg>, b: seq<Msg>, x: seq<Msg>, c: seq<Msg>, d: seq<Msg>)
    ensures a + (b + (x + c)) + d == a + b + x + (c + d)
    ensures a + (b + c) + d == a + b + (c + d)
  {
  }

  lemma PopSplits(s: State)
    requires Inv(s) && s.conn.taken > 0 && s.conn.reqs != [] && !IsLate(s, Current)
    ensures CursorInv(Pop(s, Current))
    ensures Held(s) == InFront(s) + [s.conn.reqs[0]] + Behind(s)
    ensures Held(Pop(s, Current)) == InFront(s) + Behind(s)
    ensures |InFlight(Pop(s, Current))| == |InFlight(s)| - 1
  {
    hide History, TokenInv, ControlInv, CounterInv, ConnInv;
    var c := s.conn;
    SentIs(s);
    var under := if s.pc.Nacking? then Under(c, s.pc.cursor) else [];
    if s.pc.Nacking? {
      AheadPops(c, s.pc.cursor);
    } else {
      assert c.reqs == [] + ([c.reqs[0]] + c.reqs[1..]);
    }
    assert InFlight(s) == under + ([c.reqs[0]] + c.reqs[1..]);
    assert InFlight(Pop(s, Current)) == under + c.reqs[1..];
    Regroup(s.nacked, under, [c.reqs[0]], c.reqs[1..], Remaining(s.pc));
  }

  lemma SentIs(s: State)
    requires Conns(s)
    ensures s.conn.sent == s.conn.acked + s.conn.reqs
  {
  }

  lemma PopIsSeen(s: State)
    requires Inv(s) && s.conn.taken > 0 && s.conn.reqs != [] && !IsLate(s, Current)
    ensures AllSeen(Pop(s, Current))
  {
    var t := Pop(s, Current);
    AckFindsDecoded(s.conn);
    SeenKept(s, t.(resolved := s.resolved));
    forall m | m in t.resolved
      ensures Seen(t, m)
    {
      assert m in s.resolved ==> Seen(t.(resolved := s.resolved), m);
    }
  }

  /** The oldest message is acked while an older one is under the cursor: the walk was cut before. */
  lemma PopIsScarred(s: State)
    requires Inv(s) && s.conn.taken > 0 && s.conn.reqs != [] && !IsLate(s, Current) && s.cuts > 0
    ensures CursorInv(Pop(s, Current)) && Scarred(Pop(s, Current))
  {
    hide Books, Ordered, TokenInv, ControlInv, CounterInv, Inverted;
    PopSplits(s);
    var y, a, b := s.conn.reqs[0], InFront(s), Behind(s);
    if Detached(s) {
      UnderIsOlder(s);
      InvertedByAck(s.resolved, y, a + b, s.conn.sent[s.pc.cursor.at]);
    } else if s.dropped == [] {
      InvertedMoves(s.resolved, a, y, b);
    }
  }

  lemma UnderIsOlder(s: State)
    requires Conns(s) && CursorInv(s) && Detached(s) && s.conn.reqs != []
    ensures s.conn.sent[s.pc.cursor.at] in InFront(s) && Before(s.conn.sent[s.pc.cursor.at], s.conn.reqs[0])
  {
    SentIs(s);
    assert s.conn.reqs[0] == s.conn.sent[|s.conn.acked|];
  }

  lemma PopBooks(s: State)
    requires Inv(s) && s.conn.taken > 0 && s.conn.reqs != [] && !IsLate(s, Current)
    ensures CursorInv(Pop(s, Current)) && Books(Pop(s, Current))
  {
    hide Ordered, TokenInv, ControlInv, CounterInv, Scarred, Conns, ConnInv;
    PopSplits(s);
    PopIsSeen(s);
    Removing(InFront(s), [s.conn.reqs[0]], Behind(s));
    assert Pop(s, Current).resolved == s.resolved + [s.conn.reqs[0]];
  }

  lemma PopOrdered(s: State)
    requires Inv(s) && s.conn.taken > 0 && s.conn.reqs != [] && !IsLate(s, Current) && s.cuts == 0
    ensures CursorInv(Pop(s, Current)) && Ordered(Pop(s, Current))
  {
    hide Books, TokenInv, ControlInv, CounterInv, StrictlyIncreasing, AllSeen;
    PopSplits(s);
    assert !Detached(s);
    NothingInFront(s);
    hide Held, InFlight;
    Moved(s.resolved, s.conn.reqs[0], Behind(s));
  }

  lemma NothingInFront(s: State)
    requires Inv(s) && s.cuts == 0 && !s.conn.closed && (!s.pc.Nacking? || s.pc.cursor.Begin?)
    ensures InFront(s) == []
  {
  }

  lemma Moved(a: seq<Msg>, x: Msg, b: seq<Msg>)
    ensures a + ([] + [x] + b) == a + [x] + ([] + b)
  {
  }

  lemma PopHistory(s: State)
    requires Inv(s) && s.conn.taken > 0 && s.conn.reqs != [] && !IsLate(s, Current)
    ensures CursorInv(Pop(s, Current)) && History(Pop(s, Current))
  {
    PopBooks(s);
    hide Books, Ordered, Scarred;
    if s.cuts > 0 { PopIsScarred(s); } else { PopOrdered(s); }
  }

  /** An ack of a message that was not nacked moves it from the held ones to `resolved`. */
  lemma PopKeeps(s: State)
    requires Inv(s) && s.conn.taken > 0 && !IsLate(s, Current)
    ensures Inv(Pop(s, Current))
  {
    hide History, InFlight;
    AckFindsDecoded(s.conn);
    PoppedKeeps(s.conn);
    PopSplits(s);
    PopHistory(s);
    var t := Pop(s, Current);
    assert t.conn == Popped(s.conn) && Good(t.conn, t.accepted);
  }

  /** Nacking everything in flight moves it to `nacked` without loss or reordering. */
  lemma SendNacksKeeps(s: State)
    requires Inv(s.(conn := s.conn.(readerAlive := true))) && !s.conn.closed && !s.pc.Nacking?
    ensures Inv(SendNacks(s)) && Held(SendNacks(s)) == Held(s)
  {
    var t := SendNacks(s);
    SeenKept(s.(conn := s.conn.(readerAlive := true)), t);
    assert Held(t) == Held(s) == Held(s.(conn := s.conn.(readerAlive := true)));
    assert s.pc.Waiting? || s.pc.ResendWaiting? ==> t.conn.closed;
  }

  // ---------------------------------------------------------------------------------------------
  // Sending
  // ---------------------------------------------------------------------------------------------

  /** `s` with `rem` still to be sent. */
  function WithRest(s: State, rem: seq<Msg>): State {
    s.(pc := ResendWaiting(rem))
  }

  /** The next message to be sent, the first of `rem`, is about to be handed to `Send`. */
  predicate Ready(s: State, rem: seq<Msg>) {
    var u := WithRest(s, rem);
    && rem != [] && Conns(s) && CursorInv(u) && History(u) && TokenInv(u) && CounterInv(u)
    && (!s.conn.closed ==> s.conn.available >= 1 && Whole(s.conn))
  }

  /** What is held and what is in the books does not change when the next message is sent. */
  lemma StillBooked(u: State, t: State)
    requires CursorInv(u) && History(u) && u.pc.ResendWaiting?
    requires CursorInv(t) && Held(t) == Held(u) && AllSeen(t)
    requires t.accepted == u.accepted && t.resolved == u.resolved && t.dropped == u.dropped && t.cuts == u.cuts
    requires t.conn.closed == u.conn.closed && t.past == u.past
    requires t.conn.sent + Remaining(t.pc) == u.conn.sent + Remaining(u.pc) || t.conn.closed
    requires t.pc.Nacking? ==> t.pc.cursor.Begin?
    requires !t.conn.closed ==> t.nacked == []
    requires !t.conn.closed ==> t.conn.acked == u.conn.acked && t.conn.base == u.conn.base
    requires t.cuts == 0 ==> Contiguous(t.conn, t.accepted)
    ensures History(t)
  {
    hide Inverted, AllSeen;
    assert Books(t);
  }

  lemma NextOfBlock(accepted: seq<Msg>, resolved: seq<Msg>, reqs: seq<Msg>, rem: seq<Msg>, c: Conn)
    requires rem != [] && accepted == resolved + ([] + reqs + rem)
    requires Contiguous(c, accepted) && c.base + |c.sent| == |resolved| + |reqs|
    ensures c.base + |c.sent| < |accepted|
    ensures accepted[c.base..c.base + |c.sent| + 1] == c.sent + [rem[0]]
  {
  }

  lemma ReadyBlock(s: State, rem: seq<Msg>)
    requires Ready(s, rem) && !s.conn.closed && s.cuts == 0
    ensures rem != [] && s.accepted == s.resolved + ([] + s.conn.reqs + rem)
    ensures Contiguous(s.conn, s.accepted) && s.conn.base + |s.conn.sent| == |s.resolved| + |s.conn.reqs|
  {
    hide StrictlyIncreasing, AllSeen;
  }

  lemma PushIsContiguous(s: State, rem: seq<Msg>, write: Write)
    requires Ready(s, rem) && !s.conn.closed && s.cuts == 0
    ensures Contiguous(Push(s.conn, rem[0], write), s.accepted)
  {
    hide Ready;
    ReadyBlock(s, rem);
    NextOfBlock(s.accepted, s.resolved, s.conn.reqs, rem, s.conn);
  }

  lemma PushIsGood(s: State, rem: seq<Msg>, write: Write)
    requires Ready(s, rem) && !s.conn.closed
    ensures var c := Push(s.conn, rem[0], write);
            Good(c, s.accepted) && (write.Done? ==> Whole(c)) && c.sent + rem[1..] == s.conn.sent + rem
  {
    var c := Push(s.conn, rem[0], write);
    PushKeeps(s.conn, rem[0], write);
    assert c.sent + rem[1..] == s.conn.sent + rem;
    assert StrictlyIncreasing(c.sent) by {
      forall i, j | 0 <= i < j < |c.sent|
        ensures Before(c.sent[i], c.sent[j])
      {
        assert (s.conn.sent + rem)[i] == c.sent[i] && (s.conn.sent + rem)[j] == c.sent[j];
      }
    }
    assert rem[0] in Held(WithRest(s, rem));
    assert rem[0] in multiset(s.accepted);
  }

  /** Where `drain` is after `Send` of a message that others follow. */
  predicate Follows(pc: Control, out: Outcome, rest: seq<Msg>) {
    && Remaining(pc) == rest && (pc.Resending? ==> rest != [])
    && match out {
         case MustWait => pc.Waiting? || pc.ResendWaiting?
         case Sent => pc.Idle? || pc.Resending?
         case Refused => pc.Idle? || pc.ResendWaiting?
         case Broke => pc.Nacking? && pc.cursor.Begin? && (!pc.resending ==> rest == [])
       }
  }

  lemma HandedOver(s: State, rem: seq<Msg>, write: Write, pc: Control)
    requires Ready(s, rem) && Follows(pc, DoSend(s, rem[0], write).1, rem[1..])
    ensures var t := DoSend(s, rem[0], write).0.(pc := pc);
            && CursorInv(t) && Held(t) == Held(WithRest(s, rem))
            && |InFlight(t)| == |InFlight(WithRest(s, rem))| + (if s.conn.closed then 0 else 1)
  {
    hide History, Conns, TokenInv, CounterInv, Whole, StrictlyIncreasing;
    assert rem == [rem[0]] + rem[1..];
    var t := DoSend(s, rem[0], write).0.(pc := pc);
    assert t.conn.acked == s.conn.acked && t.conn.closed == s.conn.closed && Remaining(pc) == rem[1..];
    if s.conn.closed {
      Shift(s.nacked, rem[0], rem[1..]);
      assert InFlight(t) == [] && t.nacked == s.nacked + [rem[0]];
    } else {
      ReadyEmpty(s, rem);
      Shift(s.conn.reqs, rem[0], rem[1..]);
      assert InFlight(t) == s.conn.reqs + [rem[0]] && t.nacked == [];
      assert [] + s.conn.reqs == s.conn.reqs && [] + (s.conn.reqs + [rem[0]]) == s.conn.reqs + [rem[0]];
    }
  }

  lemma ReadyEmpty(s: State, rem: seq<Msg>)
    requires Ready(s, rem) && !s.conn.closed
    ensures s.nacked == []
  {
  }

  lemma Shift(a: seq<Msg>, x: Msg, b: seq<Msg>)
    ensures a + [] + ([x] + b) == a + [x] + [] + b
    ensures a + ([x] + b) == a + [x] + b
  {
  }

  lemma DoSendBooked(s: State, rem: seq<Msg>, write: Write, pc: Control)
    requires Ready(s, rem) && Follows(pc, DoSend(s, rem[0], write).1, rem[1..])
    ensures var t := DoSend(s, rem[0], write).0.(pc := pc);
            CursorInv(t) && History(t)
  {
    hide History, Held, InFlight, AllSeen, StrictlyIncreasing, ConnInv;
    var u, t := WithRest(s, rem), DoSend(s, rem[0], write).0.(pc := pc);
    InvSeen(u);
    SeenKept(u, t);
    HandedOver(s, rem, write, pc);
    if !s.conn.closed {
      PushIsGood(s, rem, write);
      ReadyEmpty(s, rem);
      if s.cuts == 0 { PushIsContiguous(s, rem, write); }
    }
    if s.cuts == 0 { SentContiguous(s, rem); }
    StillBooked(u, t);
  }

  /** `Send` of the next unsent message: afterwards it is held by the connection or by `nacked`. */
  lemma DoSendKeeps(s: State, rem: seq<Msg>, write: Write, pc: Control)
    requires Ready(s, rem) && Follows(pc, DoSend(s, rem[0], write).1, rem[1..])
    ensures Inv(DoSend(s, rem[0], write).0.(pc := pc))
  {
    hide History, Held, InFlight, StrictlyIncreasing;
    DoSendBooked(s, rem, write, pc);
    HandedOver(s, rem, write, pc);
    if !s.conn.closed {
      PushIsGood(s, rem, write);
      FlushAllKeeps(Push(s.conn, rem[0], write));
    }
  }

  lemma SentContiguous(s: State, rem: seq<Msg>)
    requires Ready(s, rem) && s.cuts == 0
    ensures Contiguous(s.conn, s.accepted)
  {
  }

  lemma AcceptedOrder(accepted: seq<Msg>, m: Msg, s: seq<Msg>)
    requires forall i | 0 <= i < |accepted| :: Before(accepted[i], m)
    requires StrictlyIncreasing(s) && forall x | x in s :: x in accepted
    ensures StrictlyIncreasing(s + [m])
  {
    forall k | 0 <= k < |s|
      ensures Before(s[k], m)
    {
      assert s[k] in accepted;
    }
  }

  lemma AcceptBooks(s: State, m: Msg)
    requires Inv(s) && Enabled(s, Accept(m, Done))
    ensures var u := WithRest(s.(accepted := s.accepted + [m]), [m]);
            CursorInv(u) && Held(u) == Held(s) + [m] && InFlight(u) == InFlight(s) && Books(u)
  {
    hide Ordered, Scarred, AllSeen;
    var u := WithRest(s.(accepted := s.accepted + [m]), [m]);
    assert InFlight(u) == InFlight(s) && Remaining(s.pc) == [];
    assert s.nacked + InFlight(s) + [] == s.nacked + InFlight(s);
    HeldIsAccepted(s);
    InvSeen(s);
    SeenKept(s, u);
    AcceptedOrder(s.accepted, m, Held(s));
    AcceptedOrder(s.accepted, m, s.conn.sent);
    AcceptedOrder(s.accepted, m, s.accepted);
    assert s.conn.sent + [] == s.conn.sent;
    assert multiset(u.accepted) == multiset(s.accepted) + multiset{m};
    assert multiset(Held(u)) == multiset(Held(s)) + multiset{m};
  }

  lemma AcceptHistory(s: State, m: Msg)
    requires Inv(s) && Enabled(s, Accept(m, Done))
    requires var u := WithRest(s.(accepted := s.accepted + [m]), [m]); CursorInv(u) && Held(u) == Held(s) + [m]
    ensures var u := WithRest(s.(accepted := s.accepted + [m]), [m]);
            if s.cuts == 0 then Ordered(u) else Scarred(u)
  {
    hide Books, Inverted;
    var u := WithRest(s.(accepted := s.accepted + [m]), [m]);
    if s.cuts > 0 && s.dropped == [] {
      InvertedGrows(s.resolved, Held(s), m);
    } else if s.cuts == 0 {
      assert u.accepted == s.resolved + Held(s) + [m] == s.resolved + (Held(s) + [m]);
      forall c | Contiguous(c, s.accepted)
        ensures Contiguous(c, u.accepted)
      {
        assert u.accepted[c.base..c.base + |c.sent|] == s.accepted[c.base..c.base + |c.sent|];
      }
    }
  }

  lemma AcceptIsReady(s: State, m: Msg, write: Write)
    requires Inv(s) && Enabled(s, Accept(m, write))
    ensures Ready(s.(accepted := s.accepted + [m]), [m])
  {
    AcceptBooks(s, m);
    AcceptHistory(s, m);
    hide Books, Ordered, Scarred, Held, InFlight;
  }

  lemma HeldIsAccepted(s: State)
    requires CursorInv(s) && Books(s)
    ensures forall m | m in Held(s) :: m in s.accepted
  {
    forall m | m in Held(s)
      ensures m in s.accepted
    {
      assert m in multiset(s.accepted);
    }
  }

  lemma AcceptKeeps(s: State, m: Msg, write: Write)
    requires Inv(s) && Enabled(s, Accept(m, write))
    ensures Inv(Next(s, Accept(m, write)))
  {
    hide Inv;
    AcceptIsReady(s, m, write);
    var (t, out) := DoSend(s.(accepted := s.accepted + [m]), m, write);
    var pc := match out case Broke => Nacking(Begin, [], false) case MustWait => Waiting case _ => Idle;
    assert Next(s, Accept(m, write)) == t.(pc := pc);
    DoSendKeeps(s.(accepted := s.accepted + [m]), [m], write, pc);
  }

  lemma ResendIsReady(s: State, write: Write)
    requires Inv(s) && Enabled(s, Resend(write))
    ensures Ready(Restored(s), s.pc.rem)
  {
    hide Inverted, StrictlyIncreasing;
    var u := WithRest(Restored(s), s.pc.rem);
    assert InFlight(u) == InFlight(s) && Held(u) == Held(s);
    InvSeen(s);
    SeenKept(s, u);
  }

  lemma LoadKeeps(s: State)
    requires Inv(s) && Enabled(s, Load)
    ensures Inv(Next(s, Load))
  {
    hide Inverted, StrictlyIncreasing, AllSeen;
    var t := Next(s, Load);
    assert InFlight(t) == InFlight(s) && Held(t) == Held(s);
    InvSeen(s);
    SeenKept(s, t);
  }

  /** The error branch of `reconnect` re-establishes the original order by sorting. */
  lemma RequeueKeeps(s: State, rem: seq<Msg>)
    requires Inv(s.(pc := ResendWaiting(rem))) && s.conn.closed
    ensures Inv(Requeue(s, rem)) && Requeue(s, rem).nacked == s.nacked + rem
  {
    hide History, StrictlyIncreasing, SortByTime;
    var u, t := WithRest(s, rem), Requeue(s, rem);
    RestIncreases(u, rem);
    SortRestores(s.nacked, rem);
    assert Held(u) == s.nacked + rem && Held(t) == Held(u);
    InvSeen(u);
    RequeueSeen(u, t);
    RequeueContiguous(u);
    StillBooked(u, t);
  }

  lemma RequeueSeen(u: State, t: State)
    requires AllSeen(u) && t.conn == u.conn && t.past == u.past && t.resolved == u.resolved
    ensures AllSeen(t)
  {
    SeenKept(u, t);
  }

  lemma RequeueContiguous(u: State)
    requires Inv(u)
    ensures u.cuts == 0 ==> Contiguous(u.conn, u.accepted)
  {
  }

  lemma RestIncreases(u: State, rem: seq<Msg>)
    requires Inv(u) && u.pc == ResendWaiting(rem) && u.conn.closed
    ensures StrictlyIncreasing(u.nacked + rem)
  {
    assert Held(u) == u.nacked + rem;
  }

  lemma ResendKeeps(s: State, write: Write)
    requires Inv(s) && Enabled(s, Resend(write))
    ensures Inv(Next(s, Resend(write)))
  {
    hide Inv;
    ResendIsReady(s, write);
    var rem := s.pc.rem[1..];
    var (t, out) := DoSend(Restored(s), s.pc.rem[0], write);
    var pc := match out
              case Broke => Nacking(Begin, rem, true)
              case Sent => Continue(rem)
              case _ => ResendWaiting(rem);
    DoSendKeeps(Restored(s), s.pc.rem, write, pc);
    if out.Refused? { RequeueKeeps(t, rem); }
  }

  // ---------------------------------------------------------------------------------------------
  // The walk over the in-flight list
  // ---------------------------------------------------------------------------------------------

  lemma InFlightOnWalk(s: State)
    requires Inv(s) && s.pc.Nacking?
    ensures s.conn.sent[|s.conn.acked|..] == s.conn.reqs && |s.conn.sent| == |s.conn.acked| + |s.conn.reqs|
    ensures s.pc.cursor.Begin? ==> InFlight(s) == s.conn.reqs
    ensures Detached(s) && s.pc.cursor.Left? ==> InFlight(s) == s.conn.reqs
  {
  }

  /** Walking on, and nacking, moves no message between the books. */
  lemma WalkBooked(s: State, t: State)
    requires CursorInv(s) && History(s) && CursorInv(t) && Held(t) == Held(s)
    requires s.pc.Nacking? && t.pc.Nacking? && t.pc.rem == s.pc.rem && !t.pc.cursor.Begin?
    requires t.conn == s.conn && t.past == s.past && Detached(t) == Detached(s)
    requires t.accepted == s.accepted && t.resolved == s.resolved && t.dropped == s.dropped && t.cuts == s.cuts
    ensures History(t)
  {
    hide Inverted, AllSeen;
    hide StrictlyIncreasing;
    SeenSame(s, t);
    assert Books(t);
  }

  lemma SeenSame(s: State, t: State)
    requires CursorInv(s) && Books(s)
    requires t.conn.decoded == s.conn.decoded && t.past == s.past && t.resolved == s.resolved
    ensures AllSeen(t)
  {
    SeenKept(s, t);
  }

  lemma AheadMoves(c: Conn, cursor: Cursor, at: nat)
    requires |c.acked| <= |c.sent| && c.sent[|c.acked|..] == c.reqs
    requires if cursor.Begin? then c.reqs != [] && at == |c.acked|
             else cursor.Left? && |c.acked| <= cursor.at && cursor.at + 1 == at < |c.sent|
    ensures at < |c.sent| && Ahead(c, At(at)) == Ahead(c, cursor)
  {
    assert c.sent[at..] == [c.sent[at]] + c.sent[at + 1..];
  }

  /** The walk goes from one place to the next without losing sight of a message. */
  lemma MoveKeeps(s: State, at: nat)
    requires Inv(s) && s.pc.Nacking? && !Detached(s)
    requires if s.pc.cursor.Begin? then s.conn.reqs != [] && at == |s.conn.acked|
             else s.pc.cursor.Left? && s.pc.cursor.at + 1 == at < |s.conn.sent|
    ensures Inv(s.(pc := s.pc.(cursor := At(at))))
  {
    hide History, Ahead, Attributed, Credited, Good;
    InFlightOnWalk(s);
    AheadMoves(s.conn, s.pc.cursor, at);
    var t := s.(pc := s.pc.(cursor := At(at)));
    assert InFlight(t) == InFlight(s) && Held(t) == Held(s);
    WalkBooked(s, t);
  }

  lemma NackedNow(a: seq<Msg>, x: Msg, b: seq<Msg>, c: seq<Msg>)
    ensures a + [x] + b + c == a + ([x] + b) + c
  {
  }

  lemma AheadNacks(c: Conn, i: nat)
    requires |c.acked| <= |c.sent| && i < |c.sent|
    ensures Ahead(c, At(i)) == [c.sent[i]] + Ahead(c, Left(i))
  {
  }

  lemma NackOneKeeps(s: State)
    requires Inv(s) && Enabled(s, NackOne)
    ensures Inv(Next(s, NackOne))
  {
    hide History, Ahead, Attributed, Credited, Good;
    var t, i := Next(s, NackOne), s.pc.cursor.at;
    AheadNacks(s.conn, i);
    NackedNow(s.nacked, s.conn.sent[i], Ahead(s.conn, Left(i)), s.pc.rem);
    assert InFlight(s) == [s.conn.sent[i]] + InFlight(t) && t.nacked == s.nacked + [s.conn.sent[i]];
    assert Held(t) == Held(s);
    WalkBooked(s, t);
  }

  /** What a walk that is over did not reach. */
  function Unreached(s: State): seq<Msg> {
    if Detached(s) then s.conn.reqs else []
  }

  /** The walk is over: the list is empty, or the cursor is on the last element or on a removed one. */
  predicate WalkIsOver(s: State) {
    && s.pc.Nacking?
    && match s.pc.cursor
       case Begin => s.conn.reqs == []
       case At(_) => false
       case Left(i) => Detached(s) || i + 1 == |s.conn.sent|
  }

  /** The end of the walk, before the error branch of `reconnect`. */
  function Finished(s: State): State
    requires s.pc.Nacking?
  {
    Closed(s.(dropped := s.dropped + Unreached(s), pc := ResendWaiting(s.pc.rem)))
  }

  lemma FinishedHeld(s: State)
    requires Inv(s) && WalkIsOver(s)
    ensures Held(s) == s.nacked + Unreached(s) + s.pc.rem && InFlight(s) == Unreached(s)
    ensures CursorInv(Finished(s)) && Held(Finished(s)) == s.nacked + s.pc.rem && InFlight(Finished(s)) == []
  {
    hide History;
    InFlightOnWalk(s);
    assert s.nacked + [] + s.pc.rem == s.nacked + s.pc.rem;
  }

  lemma FinishedBooks(s: State)
    requires Inv(s) && WalkIsOver(s)
    ensures CursorInv(Finished(s)) && Books(Finished(s))
  {
    hide Ordered, Scarred, AllSeen, Conns;
    FinishedHeld(s);
    var t := Finished(s);
    Removing(s.nacked, Unreached(s), s.pc.rem);
    hide StrictlyIncreasing;
    assert multiset(t.dropped) == multiset(s.dropped) + multiset(Unreached(s));
    SeenSame(s, t);
  }

  lemma FinishedHistory(s: State)
    requires Inv(s) && WalkIsOver(s)
    ensures CursorInv(Finished(s)) && History(Finished(s))
  {
    FinishedHeld(s);
    FinishedBooks(s);
    hide Books, Inverted;
    if s.cuts == 0 {
      assert Unreached(s) == [];
      assert s.nacked + [] + s.pc.rem == s.nacked + s.pc.rem;
    } else if Unreached(s) == [] {
      assert s.nacked + [] + s.pc.rem == s.nacked + s.pc.rem;
      assert s.dropped + [] == s.dropped;
    }
  }

  /** The end of the walk: what it did not reach is dropped. */
  lemma ClosingKeeps(s: State)
    requires Inv(s) && WalkIsOver(s)
    ensures Inv(Finished(s))
  {
    FinishedHeld(s);
    FinishedHistory(s);
    hide History, Held, InFlight;
  }

  lemma EndWalkKeeps(s: State)
    requires Inv(s) && WalkIsOver(s)
    ensures Inv(EndWalk(s, Unreached(s)))
  {
    hide Inv;
    ClosingKeeps(s);
    if s.pc.resending {
      RequeueKeeps(Finished(s), s.pc.rem);
    } else {
      IdleAfterWalk(s);
    }
  }

  lemma IdleAfterWalk(s: State)
    requires Inv(s) && s.pc.Nacking? && !s.pc.resending && Inv(Finished(s))
    ensures Inv(Finished(s).(pc := Idle))
  {
    hide StrictlyIncreasing, Inverted, AllSeen;
    var u, t := Finished(s), Finished(s).(pc := Idle);
    assert s.pc.rem == [];
    assert Held(t) == Held(u);
    InvSeen(u);
    SeenKept(u, t);
    StillBooked(u, t);
  }

  // ---------------------------------------------------------------------------------------------
  // Steps
  // ---------------------------------------------------------------------------------------------

  lemma NackStartKeeps(s: State)
    requires Inv(s) && Enabled(s, NackStart)
    ensures Inv(Next(s, NackStart))
  {
    hide Inv;
    StartIs(s);
    if s.conn.reqs == [] { EndWalkKeeps(s); } else { MoveKeeps(s, |s.conn.acked|); }
  }

  lemma StartIs(s: State)
    requires Enabled(s, NackStart)
    ensures !Detached(s) && Unreached(s) == [] && (s.conn.reqs == [] ==> WalkIsOver(s))
  {
  }

  lemma NackNextKeeps(s: State)
    requires Inv(s) && Enabled(s, NackNext)
    ensures Inv(Next(s, NackNext))
  {
    hide Inv;
    LeftIs(s);
    if WalkIsOver(s) { EndWalkKeeps(s); } else { MoveKeeps(s, s.pc.cursor.at + 1); }
  }

  lemma LeftIs(s: State)
    requires Inv(s) && Enabled(s, NackNext)
    ensures s.pc.cursor.at < |s.conn.sent|
    ensures Next(s, NackNext) == if WalkIsOver(s) then EndWalk(s, Unreached(s))
                                 else s.(pc := s.pc.(cursor := At(s.pc.cursor.at + 1)))
  {
    hide History, Conns, CounterInv, ControlInv, TokenInv, EndWalk;
  }

  lemma ConnectKeeps(s: State, window: nat)
    requires Inv(s) && s.pc.Reconnecting? && window >= 1
    ensures Inv(Reconnected(s, window))
  {
    hide Held, InFlight, History;
    ConnectHolds(s, window);
    InvSeen(s);
    ConnectSeen(s, window);
    ConnectHistory(s, window);
    assert Conns(Reconnected(s, window)) by { hide TokenInv, ControlInv, CounterInv; }
    assert Whole(NewConn(window, |s.resolved|));
  }

  lemma ConnectSeen(s: State, window: nat)
    requires AllSeen(s)
    ensures AllSeen(Reconnected(s, window))
  {
    var t := Reconnected(s, window);
    forall m | m in t.resolved
      ensures Seen(t, m)
    {
      assert Seen(s, m);
      if m in s.conn.decoded {
        assert t.past[|s.past|] == s.conn;
      } else {
        var i :| 0 <= i < |s.past| && m in s.past[i].decoded;
        assert t.past[i] == s.past[i];
      }
    }
  }

  lemma ConnectHistory(s: State, window: nat)
    requires Inv(s) && s.pc.Reconnecting? && window >= 1
    requires var t := Reconnected(s, window);
             CursorInv(t) && Held(t) == Held(s) == s.nacked && [] + Remaining(t.pc) == s.nacked && AllSeen(t)
    ensures History(Reconnected(s, window))
  {
    hide Held, InFlight, AllSeen, Continue;
    var t := Reconnected(s, window);
    ConnectBooks(s, window);
    hide Books;
    assert s.cuts == 0 ==> Contiguous(t.past[|s.past|], t.accepted);
  }

  lemma ConnectBooks(s: State, window: nat)
    requires Inv(s) && s.pc.Reconnecting? && window >= 1
    requires var t := Reconnected(s, window);
             CursorInv(t) && Held(t) == Held(s) == s.nacked && [] + Remaining(t.pc) == s.nacked && AllSeen(t)
    ensures Books(Reconnected(s, window))
  {
    hide Held, InFlight, AllSeen, Continue, Conns, Ordered, Scarred;
  }

  lemma ConnectHolds(s: State, window: nat)
    requires Inv(s) && s.pc.Reconnecting? && window >= 1
    ensures var t := Reconnected(s, window);
            && CursorInv(t) && Held(t) == Held(s) == s.nacked && [] + Remaining(t.pc) == s.nacked
            && InFlight(t) == InFlight(s) == []
  {
    hide History, Conns;
  }

  lemma WakeKeeps(s: State)
    requires Inv(s) && Enabled(s, Wake)
    ensures Inv(Next(s, Wake))
  {
    if s.pc.ResendWaiting? && s.conn.available == 0 {
      assert s.(pc := ResendWaiting(s.pc.rem)) == s;
      RequeueKeeps(s, s.pc.rem);
    } else {
      ControlKeeps(s, Next(s, Wake));
    }
  }

  /** Steps of control that move no message. */
  lemma ControlKeeps(s: State, t: State)
    requires Inv(s) && t == s.(pc := t.pc, tokens := t.tokens)
    requires !s.pc.Nacking? && !t.pc.Nacking? && Remaining(t.pc) == Remaining(s.pc)
    requires TokenInv(t) && ControlInv(t) && (s.loaded.Some? ==> t.pc.Resending?)
    ensures Inv(t)
  {
    hide StrictlyIncreasing, Inverted, AllSeen;
    assert Held(t) == Held(s) && InFlight(t) == InFlight(s);
    InvSeen(s);
    SeenKept(s, t);
  }

  lemma ReaderFailsKeeps(s: State, w: Which)
    requires Inv(s) && Enabled(s, ReaderFails(w))
    ensures Inv(Next(s, ReaderFails(w)))
  {
    hide History, Held, InFlight;
    var c := Get(s, w).(readerAlive := false);
    ConnIs(s, w);
    if w.Current? && !c.closed {
      assert s.(conn := s.conn.(readerAlive := true)) == s;
      SendNacksKeeps(s.(conn := c));
    } else {
      NetworkStepKeeps(s, w, c);
    }
  }

  lemma ConnIs(s: State, w: Which)
    requires Inv(s) && Exists(s, w)
    ensures ConnInv(Get(s, w))
  {
  }

  lemma FlushStepKeeps(s: State, w: Which, k: nat)
    requires Inv(s) && Enabled(s, Flush(w, k))
    ensures Inv(Next(s, Flush(w, k)))
  {
    hide Inv;
    ConnIs(s, w);
    var c := Get(s, w);
    FlushKeeps(c, k);
    NetworkStepKeeps(s, w, c.(wire := c.wire + c.buffered[..k], buffered := c.buffered[k..]));
  }

  lemma DecodeStepKeeps(s: State, w: Which, ackLost: bool)
    requires Inv(s) && Enabled(s, Decode(w, ackLost))
    ensures Inv(Next(s, Decode(w, ackLost)))
  {
    hide Inv;
    ConnIs(s, w);
    var c := Get(s, w);
    DecodeKeeps(c, ackLost);
    NetworkStepKeeps(s, w, c.(wire := c.wire[1..], decoded := c.decoded + [c.wire[0]],
                              acks := if ackLost then c.acks else c.acks + 1));
  }

  lemma TakeTokenKeeps(s: State)
    requires Inv(s) && Enabled(s, TakeToken)
    ensures Inv(Next(s, TakeToken))
  {
    ControlKeeps(s, Next(s, TakeToken));
  }

  lemma BreakKeeps(s: State, w: Which)
    requires Inv(s) && Enabled(s, Break(w))
    ensures Inv(Next(s, Break(w)))
  {
    hide Inv;
    ConnIs(s, w);
    NetworkStepKeeps(s, w, Get(s, w).(dead := true));
  }

  lemma ReadAcksKeeps(s: State, w: Which, n: nat)
    requires Inv(s) && Enabled(s, ReadAcks(w, n))
    ensures Inv(Next(s, ReadAcks(w, n)))
  {
    hide Inv;
    ConnIs(s, w);
    NetworkStepKeeps(s, w, Get(s, w).(acks := Get(s, w).acks - n, taken := n));
  }

  lemma CreditKeeps(s: State, w: Which)
    requires Inv(s) && Enabled(s, Credit(w))
    ensures Inv(Next(s, Credit(w)))
  {
    hide Inv;
    ConnIs(s, w);
    NetworkStepKeeps(s, w, Get(s, w).(available := Get(s, w).available + Get(s, w).popped, popped := 0));
  }

  lemma PopAckKeeps(s: State, w: Which)
    requires Inv(s) && Enabled(s, PopAck(w))
    ensures Inv(Next(s, PopAck(w)))
  {
    PopAckIs(s, w);
    hide Enabled, Next;
    NotLateIsCurrent(s, w);
    hide Inv, Pop, IsLate;
    if IsLate(s, w) { LatePopKeeps(s, w); } else { PopKeeps(s); }
  }

  lemma PopAckIs(s: State, w: Which)
    requires Enabled(s, PopAck(w))
    ensures Exists(s, w) && Get(s, w).taken > 0 && Next(s, PopAck(w)) == Pop(s, w)
  {
    hide Pop, DoSend, EndWalk, SendNacks, Requeue;
  }

  lemma NotLateIsCurrent(s: State, w: Which)
    requires Inv(s) && Exists(s, w)
    ensures !IsLate(s, w) ==> w.Current?
  {
    hide History, ControlInv, CounterInv, TokenInv;
  }

  /** Every step of the sender, the peer, the ack readers and the network keeps the invariant. */
  lemma StepKeeps(s: State, step: Step)
    requires Inv(s) && Enabled(s, step)
    ensures Inv(Next(s, step))
  {
    hide Inv, Next, Enabled;
    match step
    case Accept(m, write) => AcceptKeeps(s, m, write);
    case Wake => WakeKeeps(s);
    case TakeToken => TakeTokenKeeps(s);
    case Connect(window) => ConnectStepKeeps(s, window);
    case Load => LoadKeeps(s);
    case Resend(write) => ResendKeeps(s, write);
    case NackStart => NackStartKeeps(s);
    case NackOne => NackOneKeeps(s);
    case NackNext => NackNextKeeps(s);
    case Break(w) => BreakKeeps(s, w);
    case Flush(w, k) => FlushStepKeeps(s, w, k);
    case Decode(w, ackLost) => DecodeStepKeeps(s, w, ackLost);
    case ReadAcks(w, n) => ReadAcksKeeps(s, w, n);
    case PopAck(w) => PopAckKeeps(s, w);
    case Credit(w) => CreditKeeps(s, w);
    case ReaderFails(w) => ReaderFailsKeeps(s, w);
  }

  lemma ConnectStepKeeps(s: State, window: int)
    requires Inv(s) && Enabled(s, Connect(window))
    ensures Inv(Next(s, Connect(window)))
  {
    ConnectKeeps(s, EffectiveWindow(window));
  }

  lemma {:induction false} RunKeeps(window: nat, run: seq<Step>)
    requires window >= 1 && IsRun(window, run)
    ensures Inv(After(window, run))
    decreases |run|
  {
    hide Inv, Next, Enabled;
    if run == [] {
      InitInv(window);
    } else {
      RunKeeps(window, run[..|run| - 1]);
      StepKeeps(After(window, run[..|run| - 1]), run[|run| - 1]);
    }
  }
}
