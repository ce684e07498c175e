/** What a message does to the resend loop that the encoder refuses, every time it is written: `Encode`
    fails on a message without a type, on a live connection as on any other. */
module TransportRefusal {

  import opened MessageOrder
  import opened Transport
  import opened TransportSafety
  import opened TransportTheorems

  /** Nothing came out of this connection, and nothing but `m` was ever handed to it. */
  predicate Mute(c: Conn, m: Msg) {
    c.buffered == [] && c.wire == [] && c.decoded == [] && (c.sent == [] || c.sent == [m])
  }

  /** All connections opened after the first `p + 1` are mute. */
  predicate AllMute(s: State, m: Msg, p: nat) {
    && p <= |s.past|
    && (forall i | p < i < |s.past| :: Mute(s.past[i], m))
    && (p < |s.past| ==> Mute(s.conn, m))
  }

  /** The refused message is the next one to be sent, wherever `drain` is. */
  predicate AtHead(s: State, m: Msg, p: nat) {
    match s.pc
    case Idle => s.conn.closed && s.nacked != [] && s.nacked[0] == m
    case Reconnecting => s.nacked != [] && s.nacked[0] == m
    case Resending(rem) => p < |s.past| && s.conn.sent == [] && s.nacked == [] && rem != [] && rem[0] == m
    case Nacking(cursor, rem, resending) =>
      && p < |s.past| && resending && s.conn.sent == [m]
      && s.nacked == (if cursor.Left? then [m] else []) && (!cursor.Begin? ==> cursor.at == 0)
    case _ => false
  }

  predicate Blocked(s: State, m: Msg, p: nat) {
    Inv(s) && AllMute(s, m, p) && AtHead(s, m, p)
  }

  /** A write of `m` fails, whatever the state of the socket, and leaves no frame. */
  predicate Refusing(s: State, step: Step, m: Msg) {
    step.Resend? && s.pc.Resending? && s.pc.rem != [] && s.pc.rem[0] == m ==> step.write == Failed(false)
  }

  lemma MuteIs(c: Conn, m: Msg)
    requires ConnInv(c) && Mute(c, m)
    ensures c.acked == [] && c.taken == c.acks == 0 && c.reqs == c.sent
  {
  }

  lemma HeldWhenClosed(s: State)
    requires CursorInv(s) && s.conn.closed && (s.pc.Idle? || s.pc.Reconnecting?)
    ensures Held(s) == s.nacked
  {
  }

  lemma HeldWhenResending(s: State)
    requires CursorInv(s) && s.nacked == [] && s.pc.Resending? && s.conn.reqs == []
    ensures Held(s) == s.pc.rem
  {
  }

  lemma HeldOnWalk(s: State, m: Msg)
    requires CursorInv(s) && s.pc.Nacking? && s.conn.sent == s.conn.reqs == [m] && s.conn.acked == []
    requires s.nacked == (if s.pc.cursor.Left? then [m] else [])
    ensures Held(s) == [m] + s.pc.rem
  {
  }

  lemma ClosedIs(s: State, m: Msg, p: nat)
    requires Blocked(s, m, p) && (s.pc.Idle? || s.pc.Reconnecting?)
    ensures s.conn.closed
  {
    hide History, Conns, ControlInv, CounterInv, AllMute;
  }

  lemma HeldAtHead(s: State, m: Msg, p: nat)
    requires Blocked(s, m, p)
    ensures CursorInv(s) && Held(s) != [] && Held(s)[0] == m && m in Held(s)
    ensures s.pc.Idle? || s.pc.Reconnecting? ==> Held(s) == s.nacked
    ensures s.pc.Resending? ==> Held(s) == s.pc.rem
    ensures s.pc.Nacking? ==> Held(s) == [m] + s.pc.rem
  {
    hide Inv, Held, ConnInv;
    CursorIs(s);
    ConnIs(s, Current);
    if s.pc.Idle? || s.pc.Reconnecting? {
      ClosedIs(s, m, p);
      HeldWhenClosed(s);
    } else {
      MuteIs(s.conn, m);
      if s.pc.Nacking? { HeldOnWalk(s, m); } else { HeldWhenResending(s); }
    }
  }

  /** The list that `reconnect` puts together is what was held, in the same order. */
  lemma RequeuedAtHead(s: State, m: Msg, rem: seq<Msg>)
    requires CursorInv(s) && Books(s) && Held(s) == [m] + rem && s.nacked == [m]
    ensures Requeue(s, rem).nacked == [m] + rem
  {
    SortRestores([m], rem);
  }

  /** Replacing a connection by one that is mute if it was and carries the same. */
  lemma PutStaysBlocked(s: State, w: Which, c: Conn, m: Msg, p: nat)
    requires AllMute(s, m, p) && AtHead(s, m, p) && Exists(s, w)
    requires var b := Get(s, w);
             c.sent == b.sent && (b.closed ==> c.closed) && (Mute(b, m) ==> Mute(c, m))
    ensures AllMute(Put(s, w, c), m, p) && AtHead(Put(s, w, c), m, p)
  {
    hide Mute;
  }

  lemma NetworkStep(s: State, step: Step, m: Msg) returns (c: Conn)
    requires step.Break? || step.Flush? || step.Decode? || step.ReadAcks? || step.Credit?
    requires Enabled(s, step) && ConnInv(Get(s, step.w))
    ensures Next(s, step) == Put(s, step.w, c)
    ensures var b := Get(s, step.w);
            c.sent == b.sent && (b.closed ==> c.closed) && (Mute(b, m) ==> Mute(c, m))
  {
    hide ConnInv, Put;
    var b := Get(s, step.w);
    match step
    case Break(_) => c := b.(dead := true);
    case Flush(_, k) => c := b.(wire := b.wire + b.buffered[..k], buffered := b.buffered[k..]);
    case Decode(_, ackLost) =>
      c := b.(wire := b.wire[1..], decoded := b.decoded + [b.wire[0]],
              acks := if ackLost then b.acks else b.acks + 1);
    case ReadAcks(_, n) => c := b.(acks := b.acks - n, taken := n);
    case Credit(_) => c := b.(available := b.available + b.popped, popped := 0);
  }

  lemma NetworkStaysBlocked(s: State, step: Step, m: Msg, p: nat)
    requires Blocked(s, m, p) && Enabled(s, step)
    requires step.Break? || step.Flush? || step.Decode? || step.ReadAcks? || step.Credit?
    ensures var t := Next(s, step);
            AllMute(t, m, p) && AtHead(t, m, p) && t.pc == s.pc && t.nacked == s.nacked && t.resolved == s.resolved
  {
    ConnIs(s, step.w);
    hide Inv, Next, Enabled;
    EnabledExists(s, step);
    var c := NetworkStep(s, step, m);
    PutStaysBlocked(s, step.w, c, m, p);
  }

  lemma EnabledExists(s: State, step: Step)
    requires Enabled(s, step)
    requires step.Break? || step.Flush? || step.Decode? || step.ReadAcks? || step.Credit?
    ensures Exists(s, step.w)
  {
  }

  /** Being blocked does not depend on the counters. */
  lemma CountersDoNotMatter(s: State, t: State, m: Msg, p: nat)
    requires AllMute(s, m, p) && AtHead(s, m, p)
    requires t.conn == s.conn && t.past == s.past && t.pc == s.pc && t.nacked == s.nacked
    ensures AllMute(t, m, p) && AtHead(t, m, p)
  {
    hide Mute;
  }

  lemma LatePopIs(s: State, w: Which)
    requires Exists(s, w) && Get(s, w).taken > 0 && Get(s, w).reqs != [] && IsLate(s, w)
    ensures var t, u := Pop(s, w), Put(s, w, Popped(Get(s, w)));
            t.conn == u.conn && t.past == u.past && t.pc == s.pc && t.nacked == s.nacked && t.resolved == s.resolved
  {
  }

  lemma PutKeepsControl(s: State, w: Which, c: Conn)
    requires Exists(s, w)
    ensures var t := Put(s, w, c);
            t.pc == s.pc && t.nacked == s.nacked && t.resolved == s.resolved
  {
  }

  lemma PoppedIsMute(c: Conn, m: Msg)
    requires c.taken > 0 && c.reqs != []
    ensures Mute(c, m) ==> Mute(Popped(c), m)
  {
  }

  lemma PopStaysBlocked(s: State, w: Which, m: Msg, p: nat)
    requires Blocked(s, m, p) && Enabled(s, PopAck(w))
    ensures var t := Next(s, PopAck(w));
            AllMute(t, m, p) && AtHead(t, m, p) && t.pc == s.pc && t.nacked == s.nacked && t.resolved == s.resolved
  {
    hide Inv, AllMute, AtHead, Put, Pop, IsLate, ConnInv, Mute;
    ConnIs(s, w);
    PopIsLate(s, w, m, p);
    AckFindsDecoded(Get(s, w));
    LatePopIs(s, w);
    PoppedIsMute(Get(s, w), m);
    PutStaysBlocked(s, w, Popped(Get(s, w)), m, p);
    PutKeepsControl(s, w, Popped(Get(s, w)));
    CountersDoNotMatter(Put(s, w, Popped(Get(s, w))), Pop(s, w), m, p);
  }

  lemma MuteHasNoAcks(s: State, w: Which, m: Msg, p: nat)
    requires AllMute(s, m, p) && Exists(s, w) && ConnInv(Get(s, w)) && Get(s, w).taken > 0
    ensures w.Current? ==> |s.past| <= p
  {
    hide ConnInv, Mute;
    if w.Current? && p < |s.past| { MuteIs(s.conn, m); }
  }

  lemma PastIsClosed(s: State, w: Which)
    requires Inv(s) && Exists(s, w) && w.Past?
    ensures Get(s, w).closed
  {
    hide History, TokenInv, ControlInv, CounterInv, Good;
  }

  lemma PopIsLate(s: State, w: Which, m: Msg, p: nat)
    requires Blocked(s, m, p) && Enabled(s, PopAck(w))
    ensures IsLate(s, w)
  {
    hide Inv, AllMute, Mute, ConnInv;
    ConnIs(s, w);
    MuteHasNoAcks(s, w, m, p);
    if w.Past? {
      PastIsClosed(s, w);
    } else if s.pc.Idle? || s.pc.Reconnecting? {
      ClosedIs(s, m, p);
    }
  }

  lemma ReaderStaysBlocked(s: State, w: Which, m: Msg, p: nat)
    requires Blocked(s, m, p) && Enabled(s, ReaderFails(w))
    ensures var t := Next(s, ReaderFails(w));
            AllMute(t, m, p) && AtHead(t, m, p) && t.pc == s.pc && t.nacked == s.nacked && t.resolved == s.resolved
  {
    hide Inv, AllMute, Mute;
    ConnIs(s, w);
    var c := Get(s, w).(readerAlive := false);
    SilentIsMute(Get(s, w), c, m);
    PutStaysBlocked(s, w, c, m, p);
    var u := Put(s, w, c);
    if w.Current? && !c.closed {
      OpenHasNothing(s, m, p);
      ClosingStaysBlocked(u, m, p);
    }
  }

  lemma SilentIsMute(b: Conn, c: Conn, m: Msg)
    requires c == b.(readerAlive := false)
    ensures Mute(b, m) ==> Mute(c, m)
  {
  }

  /** At the head of the line an open connection has not carried anything yet. */
  lemma OpenHasNothing(s: State, m: Msg, p: nat)
    requires Blocked(s, m, p) && !s.conn.closed && !s.pc.Nacking?
    ensures s.conn.reqs == []
  {
    if s.pc.Reconnecting? { ClosedIs(s, m, p); }
    ConnIs(s, Current);
    hide Inv, ConnInv;
    MuteIs(s.conn, m);
  }

  lemma ClosingStaysBlocked(s: State, m: Msg, p: nat)
    requires AllMute(s, m, p) && AtHead(s, m, p) && s.conn.reqs == [] && !s.conn.closed
    ensures var t := SendNacks(s);
            AllMute(t, m, p) && AtHead(t, m, p) && t.pc == s.pc && t.nacked == s.nacked && t.resolved == s.resolved
  {
    assert s.nacked + [] == s.nacked;
  }

  lemma AcceptStaysBlocked(s: State, x: Msg, write: Write, m: Msg, p: nat)
    requires Blocked(s, m, p) && Enabled(s, Accept(x, write))
    ensures var t := Next(s, Accept(x, write));
            && AllMute(t, m, p) && AtHead(t, m, p) && t.pc.Idle? && t.resolved == s.resolved
            && t.nacked == s.nacked + [x]
  {
    hide Inv;
  }

  lemma ReconnectStaysBlocked(s: State, step: Step, m: Msg, p: nat)
    requires Blocked(s, m, p) && Enabled(s, step) && (step.TakeToken? || step.Connect?)
    ensures var t := Next(s, step);
            && AllMute(t, m, p) && AtHead(t, m, p) && t.resolved == s.resolved
            && (if step.TakeToken? then t.pc.Reconnecting? && t.nacked == s.nacked else t.pc == Resending(s.nacked))
  {
    hide History, Conns, CounterInv, ControlInv;
  }

  lemma LoadStaysBlocked(s: State, m: Msg, p: nat)
    requires Blocked(s, m, p) && Enabled(s, Load)
    ensures var t := Next(s, Load);
            AllMute(t, m, p) && AtHead(t, m, p) && t.resolved == s.resolved && t.pc == s.pc && t.nacked == s.nacked
  {
    hide Inv, Mute;
  }

  lemma ResendStaysBlocked(s: State, write: Write, m: Msg, p: nat)
    requires Blocked(s, m, p) && Enabled(s, Resend(write)) && Refusing(s, Resend(write), m)
    ensures var t := Next(s, Resend(write));
            && AllMute(t, m, p) && AtHead(t, m, p) && t.resolved == s.resolved
            && (if t.pc.Idle? then t.nacked == s.pc.rem else t.pc == Nacking(Begin, s.pc.rem[1..], true))
  {
    hide Inv, SortByTime, AllMute, Next;
    assert s.pc.rem == [m] + s.pc.rem[1..];
    if s.conn.closed { RestIs(s, m); }
    if s.conn.closed { ResendOnClosed(s, write, m, p); } else { ResendRefused(s, m, p); }
  }

  lemma ResendOnClosed(s: State, write: Write, m: Msg, p: nat)
    requires AllMute(s, m, p) && AtHead(s, m, p) && Enabled(s, Resend(write)) && s.conn.closed
    requires SortByTime(s.pc.rem[1..] + [m]) == [m] + s.pc.rem[1..] == s.pc.rem
    ensures var t := Next(s, Resend(write));
            AllMute(t, m, p) && AtHead(t, m, p) && t.resolved == s.resolved && t.pc.Idle? && t.nacked == s.pc.rem
  {
    hide SortByTime, Mute;
    assert [] + [m] == [m];
  }

  lemma ResendRefused(s: State, m: Msg, p: nat)
    requires AllMute(s, m, p) && AtHead(s, m, p) && Enabled(s, Resend(Failed(false))) && !s.conn.closed
    ensures var t := Next(s, Resend(Failed(false)));
            && AllMute(t, m, p) && AtHead(t, m, p) && t.resolved == s.resolved
            && t.pc == Nacking(Begin, s.pc.rem[1..], true)
  {
    assert [] + [m] == [m];
  }

  lemma RestIs(s: State, m: Msg)
    requires Inv(s) && s.pc.Resending? && s.conn.closed && s.nacked == [] && s.pc.rem != [] && s.pc.rem[0] == m
    ensures SortByTime(s.pc.rem[1..] + [m]) == [m] + s.pc.rem[1..]
  {
    hide Conns, TokenInv, ControlInv, CounterInv, Ordered, Scarred;
    assert Held(s) == [m] + s.pc.rem[1..];
    SortRestores([m], s.pc.rem[1..]);
  }

  lemma WalkStaysBlocked(s: State, step: Step, m: Msg, p: nat)
    requires Blocked(s, m, p) && Enabled(s, step) && (step.NackStart? || step.NackOne? || step.NackNext?)
    ensures var t := Next(s, step);
            && AllMute(t, m, p) && AtHead(t, m, p) && t.resolved == s.resolved
            && (if t.pc.Idle? then t.nacked == [m] + s.pc.rem else t.pc.Nacking? && t.pc.rem == s.pc.rem)
  {
    hide Inv, SortByTime, AllMute, ConnInv, Requeue, Next, Held;
    ConnIs(s, Current);
    BooksAre(s);
    if s.pc.cursor.Left? {
      HeldAtHead(s, m, p);
      RequeuedAtHead(s, m, s.pc.rem);
    }
    MuteNow(s, m, p);
    WalkedMute(s, step, m, p);
    match step
    case NackStart => WalkStarts(s, m, p);
    case NackOne => WalkNacks(s, m, p);
    case NackNext => WalkEnds(s, m, p);
  }

  lemma BooksAre(s: State)
    requires Inv(s)
    ensures CursorInv(s) && Books(s)
  {
  }

  lemma MuteNow(s: State, m: Msg, p: nat)
    requires AllMute(s, m, p) && AtHead(s, m, p) && s.pc.Nacking? && ConnInv(s.conn)
    ensures s.conn.acked == [] && s.conn.reqs == [m]
  {
    hide ConnInv;
    MuteIs(s.conn, m);
  }

  lemma WalkStarts(s: State, m: Msg, p: nat)
    requires AtHead(s, m, p) && Enabled(s, NackStart) && s.conn.acked == [] && s.conn.reqs == [m]
    ensures var t := Next(s, NackStart);
            AtHead(t, m, p) && t.resolved == s.resolved && t.pc.Nacking? && t.pc.rem == s.pc.rem
  {
  }

  lemma WalkNacks(s: State, m: Msg, p: nat)
    requires AtHead(s, m, p) && Enabled(s, NackOne)
    ensures var t := Next(s, NackOne);
            AtHead(t, m, p) && t.resolved == s.resolved && t.pc.Nacking? && t.pc.rem == s.pc.rem
  {
    hide EndWalk, DoSend, Pop, Put, Reconnected, Requeue, SendNacks;
    var t := Next(s, NackOne);
    assert t.nacked == [] + [m] == [m];
    assert t.pc == Nacking(Left(0), s.pc.rem, true);
  }

  lemma WalkEnds(s: State, m: Msg, p: nat)
    requires AtHead(s, m, p) && Enabled(s, NackNext) && s.conn.acked == []
    requires Requeue(s, s.pc.rem).nacked == [m] + s.pc.rem
    ensures var t := Next(s, NackNext);
            AtHead(t, m, p) && t.resolved == s.resolved && t.pc.Idle? && t.nacked == [m] + s.pc.rem
  {
    hide SortByTime;
    assert !Detached(s);
  }

  lemma WalkedMute(s: State, step: Step, m: Msg, p: nat)
    requires AllMute(s, m, p) && Enabled(s, step) && (step.NackStart? || step.NackOne? || step.NackNext?)
    ensures AllMute(Next(s, step), m, p)
  {
    hide SortByTime;
  }

  /** One step of anybody: the message stays at the head, what was held stays held, nothing is resolved. */
  lemma BlockedKept(s: State, step: Step, m: Msg, p: nat)
    requires Blocked(s, m, p) && Enabled(s, step) && Refusing(s, step, m)
    ensures var t := Next(s, step);
            && Blocked(t, m, p) && t.resolved == s.resolved && Held(s) <= Held(t)
            && (!step.Accept? ==> Held(t) == Held(s))
  {
    hide Inv, Next, Enabled, Held, AllMute, Refusing;
    StepKeeps(s, step);
    StepStaysBlocked(s, step, m, p);
    HeldAtHead(s, m, p);
    HeldAtHead(Next(s, step), m, p);
  }

  /** What a step leaves of the messages that are held, seen from the head of the line. */
  predicate Followed(s: State, step: Step, t: State, m: Msg) {
    match step
    case Accept(x, _) => s.pc.Idle? && t.pc.Idle? && t.nacked == s.nacked + [x]
    case TakeToken => s.pc.Idle? && t.pc.Reconnecting? && t.nacked == s.nacked
    case Connect(_) => s.pc.Reconnecting? && t.pc == Resending(s.nacked)
    case Resend(_) =>
      && s.pc.Resending? && s.pc.rem != [] && s.pc.rem[0] == m
      && (if t.pc.Idle? then t.nacked == s.pc.rem else t.pc == Nacking(Begin, s.pc.rem[1..], true))
    case Wake => false
    case _ =>
      if step.NackStart? || step.NackOne? || step.NackNext? then
        s.pc.Nacking? && (if t.pc.Idle? then t.nacked == [m] + s.pc.rem else t.pc.Nacking? && t.pc.rem == s.pc.rem)
      else
        t.pc == s.pc && t.nacked == s.nacked
  }

  lemma StepStaysBlocked(s: State, step: Step, m: Msg, p: nat)
    requires Blocked(s, m, p) && Enabled(s, step) && Refusing(s, step, m)
    ensures var t := Next(s, step);
            AllMute(t, m, p) && AtHead(t, m, p) && t.resolved == s.resolved && Followed(s, step, t, m)
  {
    hide Inv, Next, AllMute;
    match step {
      case Accept(x, write) => AcceptStaysBlocked(s, x, write, m, p);
      case TakeToken => ReconnectStaysBlocked(s, step, m, p);
      case Connect(_) => ReconnectStaysBlocked(s, step, m, p);
      case Load => LoadStaysBlocked(s, m, p);
      case Resend(write) => ResendStaysBlocked(s, write, m, p);
      case NackStart => WalkStaysBlocked(s, step, m, p);
      case NackOne => WalkStaysBlocked(s, step, m, p);
      case NackNext => WalkStaysBlocked(s, step, m, p);
      case PopAck(w) => PopStaysBlocked(s, w, m, p);
      case ReaderFails(w) => ReaderStaysBlocked(s, w, m, p);
      case Wake => NobodyWaits(s, m, p);
      case _ => NetworkStaysBlocked(s, step, m, p);
    }
  }

  lemma NobodyWaits(s: State, m: Msg, p: nat)
    requires Blocked(s, m, p)
    ensures !Enabled(s, Wake)
  {
  }

  /** All writes of `m` along the way fail. */
  predicate AllRefusing(s: State, steps: seq<Step>, m: Msg)
    decreases |steps|
  {
    steps != [] ==>
      && Refusing(s, steps[0], m)
      && (Enabled(s, steps[0]) ==> AllRefusing(Next(s, steps[0]), steps[1..], m))
  }

  lemma {:induction false} BlockedThroughout(s: State, steps: seq<Step>, t: State, m: Msg, p: nat)
    requires Blocked(s, m, p) && LeadsTo(s, steps, t) && AllRefusing(s, steps, m)
    ensures Blocked(t, m, p) && t.resolved == s.resolved && Held(s) <= Held(t)
    decreases |steps|
  {
    hide Inv, Next, Enabled, Held, AllMute, AtHead, Refusing;
    if steps != [] {
      BlockedKept(s, steps[0], m, p);
      BlockedThroughout(Next(s, steps[0]), steps[1..], t, m, p);
    }
  }

  /** Head of line: once a refused message is the first of the nacked ones, then in every continuation,
      over any number of connections, nothing that was held gets resolved and no peer sees anything more;
      the message stays first, and everything accepted meanwhile queues up behind it. */
  lemma RefusedMessageBlocks(s: State, steps: seq<Step>, t: State)
    requires Reachable(s) && s.pc.Idle? && s.conn.closed && s.nacked != []
    requires LeadsTo(s, steps, t) && AllRefusing(s, steps, s.nacked[0])
    ensures CursorInv(t) && t.resolved == s.resolved && s.nacked <= Held(t)
    ensures forall i | |s.past| < i < |t.past| :: Mute(t.past[i], s.nacked[0])
    ensures |s.past| < |t.past| ==> Mute(t.conn, s.nacked[0])
  {
    ReachableInv(s);
    hide Reachable, Inv, Held, Mute, LeadsTo, AllRefusing;
    var m := s.nacked[0];
    assert Blocked(s, m, |s.past|);
    HeldAtHead(s, m, |s.past|);
    BlockedThroughout(s, steps, t, m, |s.past|);
    CursorIs(t);
  }

  /** One step of the resend loop. */
  lemma Going(s: State, step: Step, m: Msg, p: nat) returns (t: State)
    requires Blocked(s, m, p) && Enabled(s, step) && Refusing(s, step, m) && !step.Accept?
    ensures t == Next(s, step) && Blocked(t, m, p) && CursorInv(s) && CursorInv(t) && Held(t) == Held(s)
  {
    hide Inv, Next, Enabled, Held, AllMute, AtHead, Refusing;
    BlockedKept(s, step, m, p);
    t := Next(s, step);
    CursorIs(s);
    CursorIs(t);
  }

  lemma Prepend(s: State, step: Step, steps: seq<Step>, t: State, m: Msg)
    requires Enabled(s, step) && Refusing(s, step, m)
    requires LeadsTo(Next(s, step), steps, t) && AllRefusing(Next(s, step), steps, m)
    ensures LeadsTo(s, [step] + steps, t) && AllRefusing(s, [step] + steps, m)
  {
    hide Enabled, Next, Refusing;
    assert ([step] + steps)[1..] == steps;
  }

  /** And the loop goes round: token, connection, write, refusal, nack, close, and the same list is there
      again, however often. */
  lemma RefusedRound(s: State, window: int) returns (steps: seq<Step>, t: State)
    requires Reachable(s) && s.pc.Idle? && s.conn.closed && s.nacked != [] && EffectiveWindow(window) >= 1
    ensures LeadsTo(s, steps, t) && AllRefusing(s, steps, s.nacked[0])
    ensures t.pc.Idle? && t.conn.closed && t.nacked == s.nacked && |t.past| == |s.past| + 1
  {
    ReachableInv(s);
    hide Reachable, Inv, AllMute, Held, AtHead, LeadsTo, AllRefusing, Next, Enabled;
    var m, p := s.nacked[0], |s.past|;
    BlockedNow(s);
    NacksWait(s);
    var t1 := Going(s, TakeToken, m, p);
    TakenIs(s);
    ConnectIs(t1, window);
    var t2 := Going(t1, Connect(window), m, p);
    var rest;
    t, rest := RefusalRound(t2, m, p);
    HeldAtHead(s, m, p);
    HeldAtHead(t, m, p);
    ClosedIs(t, m, p);
    Prepend(t1, Connect(window), rest, t, m);
    Prepend(s, TakeToken, [Connect(window)] + rest, t, m);
    steps := [TakeToken] + ([Connect(window)] + rest);
  }

  lemma TakenIs(s: State)
    requires Enabled(s, TakeToken)
    ensures var t := Next(s, TakeToken);
            t.pc.Reconnecting? && t.past == s.past && t.nacked == s.nacked
  {
  }

  lemma ConnectIs(s: State, window: int)
    requires Inv(s) && s.pc.Reconnecting? && s.nacked != [] && EffectiveWindow(window) >= 1
    ensures Enabled(s, Connect(window))
    ensures var t := Next(s, Connect(window));
            t.pc.Resending? && !t.conn.closed && |t.past| == |s.past| + 1 && t.loaded.None?
  {
    hide History, Conns, ControlInv, TokenInv;
  }

  /** The refused write on the new connection and the walk after it. */
  lemma RefusalRound(s: State, m: Msg, p: nat) returns (t: State, steps: seq<Step>)
    requires Blocked(s, m, p) && s.pc.Resending? && !s.conn.closed && s.loaded.None?
    ensures CursorInv(s) && CursorInv(t) && Blocked(t, m, p) && Held(t) == Held(s)
    ensures t.pc.Idle? && t.past == s.past
    ensures LeadsTo(s, steps, t) && AllRefusing(s, steps, m)
  {
    hide Inv, AllMute, Held, LeadsTo, AllRefusing;
    var l := Going(s, Load, m, p);
    var u := Going(l, Resend(Failed(false)), m, p);
    hide Next, Enabled;
    var walk;
    t, walk := WalkRound(u, m, p);
    Prepend(l, Resend(Failed(false)), walk, t, m);
    Prepend(s, Load, [Resend(Failed(false))] + walk, t, m);
    steps := [Load] + ([Resend(Failed(false))] + walk);
  }

  lemma BlockedNow(s: State)
    requires Inv(s) && s.pc.Idle? && s.conn.closed && s.nacked != []
    ensures Blocked(s, s.nacked[0], |s.past|)
  {
    hide Inv;
  }

  lemma NacksWait(s: State)
    requires Inv(s) && s.pc.Idle? && s.conn.closed
    ensures Enabled(s, TakeToken)
  {
    hide History, Conns, ControlInv, CounterInv;
  }

  /** The walk over the one message in flight. */
  lemma WalkRound(s: State, m: Msg, p: nat) returns (t: State, steps: seq<Step>)
    requires Blocked(s, m, p) && s.pc.Nacking? && s.pc.cursor.Begin?
    ensures CursorInv(s) && CursorInv(t) && Blocked(t, m, p) && Held(t) == Held(s)
    ensures t.pc.Idle? && t.past == s.past
    ensures LeadsTo(s, steps, t) && AllRefusing(s, steps, m)
  {
    hide Inv, AllMute, Held, ConnInv;
    ConnIs(s, Current);
    MuteForWalk(s, m, p);
    var t1 := Going(s, NackStart, m, p);
    var t2 := Going(t1, NackOne, m, p);
    t := Going(t2, NackNext, m, p);
    Prepend(t2, NackNext, [], t, m);
    Prepend(t1, NackOne, [NackNext] + [], t, m);
    Prepend(s, NackStart, [NackOne] + ([NackNext] + []), t, m);
    steps := [NackStart] + ([NackOne] + ([NackNext] + []));
  }

  lemma MuteForWalk(s: State, m: Msg, p: nat)
    requires Blocked(s, m, p) && s.pc.Nacking? && ConnInv(s.conn)
    ensures s.conn.acked == [] && s.conn.reqs == [m] && s.conn.sent == [m]
  {
    hide Inv, ConnInv;
    MuteNow(s, m, p);
  }
}
