/** The reliable transport: a windowed acknowledgement protocol with nack, reconnect and resend.

    The sender (`Send` under `ReliableSend`), the peer (`Recv`), the byte pipes between them and the
    goroutines that read acks are one labelled step system; the environment chooses the order of the
    steps and where connections and writes fail.

    A step is what the program does without another goroutine being able to see or change its data.  The
    ack reader removes list elements without the lock, so one iteration of its loop is a step, and so are
    the nacking of one element and the move to the next one when the sender walks the same list.  When the
    reader itself walks it, nobody else can touch the list: it removes nothing meanwhile, and the sender
    needs the lock that it holds.  That walk is one step.  The counter `outstanding` is changed under a lock,
    except by the resend loop: its increment reads in one step and writes in another. */
module Transport {

  import opened Wrappers
  import opened MessageOrder

  /** One connection: the fields of its `Send`, the locals of the goroutine in `readAck`, the two pipes
      and the peer's `Recv`, followed by histories.

      - `reqs` holds the in-flight messages, oldest first.
      - `taken` ack bytes were read but not looked at yet, `popped` ones removed a message from `reqs`
        and have not been added to `available` yet.
      - `buffered` is in the stream encoder, `wire` is flushed and undecoded, `decoded` is what the peer
        returned from `Generate`, `acks` counts ack bytes on their way back.
      - `dead` says that the underlying socket broke.
      - `sent` and `acked` are the histories of pushed and popped messages, `tokens` counts calls of
        `OnClosed`, and `base` is how many messages had been resolved when the connection was opened. */
  datatype Conn = Conn(
    window: nat, available: int, reqs: seq<Msg>, closed: bool,
    taken: nat, popped: nat, readerAlive: bool,
    buffered: seq<Msg>, wire: seq<Msg>, decoded: seq<Msg>, acks: nat, dead: bool,
    sent: seq<Msg>, acked: seq<Msg>, tokens: nat, base: nat)

  /** Where the loop of `sendNacks` is: before `reqs.Back()`, at an element that it has not nacked, or at one
      that it has nacked, before `e.Prev()`.  An element is known by its position among all messages that
      were ever pushed; it has been removed from the list when that is below `|acked|`. */
  datatype Cursor = Begin | At(at: nat) | Left(at: nat)

  /** Where the `drain` goroutine is: at its select, inside the wait loop of `Send`, between taking a
      close token and a successful `Connect`, in the resend loop of `reconnect`, or in the loop of
      `sendNacks` after a failed write, in the middle of a resend or not. */
  datatype Control =
    | Idle
    | Waiting
    | Reconnecting
    | Resending(rem: seq<Msg>)
    | ResendWaiting(rem: seq<Msg>)
    | Nacking(cursor: Cursor, rem: seq<Msg>, resending: bool)

  /** The whole system.  `tokens` is the occupancy of the one-slot `closed` channel.  `accepted` and
      `resolved` are histories: messages taken from callers, and messages acked before their nack.  `late`
      counts acks of messages that were nacked already, or are about to be, or whose connection has closed.
      `dropped` holds the messages that a walk over the in-flight list did not reach because the element it
      stood on had been removed; `cuts` counts such removals while other elements were behind the cursor.
      `loaded` is the value that the resend loop has read for its `outstanding++`, which holds no lock; `missed`
      counts the decrements that were overwritten that way. */
  datatype State = State(
    conn: Conn, past: seq<Conn>,
    nacked: seq<Msg>, outstanding: int, tokens: nat, pc: Control,
    accepted: seq<Msg>, resolved: seq<Msg>, late: nat, dropped: seq<Msg>, cuts: nat,
    loaded: Option<int>, missed: int)

  datatype Which = Current | Past(i: nat)

  /** What `enc.Receive` did: it buffered the whole frame, or it returned an error, be it for a broken
      socket or for a message it refuses, and then the frame may have got out all the same. */
  datatype Write = Done | Failed(landed: bool)

  datatype Step =
    | Accept(m: Msg, write: Write)
    | Wake
    | TakeToken
    | Connect(window: int)
    | Load
    | Resend(write: Write)
    | NackStart
    | NackOne
    | NackNext
    | Break(w: Which)
    | Flush(w: Which, k: nat)
    | Decode(w: Which, ackLost: bool)
    | ReadAcks(w: Which, n: nat)
    | PopAck(w: Which)
    | Credit(w: Which)
    | ReaderFails(w: Which)

  const MINIMUM_WINDOW := 20

  /** The window that `NewSend` settles on. */
  function EffectiveWindow(window: int): int {
    if window == -1 then 1 else if window == 0 then MINIMUM_WINDOW else window
  }

  function NewConn(window: nat, base: nat): Conn {
    Conn(window, window, [], false, 0, 0, true, [], [], [], 0, false, [], [], 0, base)
  }

  function Init(window: nat): State {
    State(NewConn(window, 0), [], [], 0, 0, Idle, [], [], 0, [], 0, None, 0)
  }

  // ---------------------------------------------------------------------------------------------
  // The pieces of Send and ReliableSend
  // ---------------------------------------------------------------------------------------------

  /** `reqs.PushFront`, `available--` and `enc.Receive`. */
  function Push(c: Conn, m: Msg, write: Write): Conn {
    c.(reqs := c.reqs + [m], available := c.available - 1, sent := c.sent + [m],
       buffered := if write == Failed(false) then c.buffered else c.buffered + [m])
  }

  /** `enc.Flush`; on a broken socket the error is ignored and the bytes stay behind. */
  function FlushAll(c: Conn): Conn {
    if c.dead then c else c.(wire := c.wire + c.buffered, buffered := [])
  }

  /** The last three statements of `sendNacks`. */
  function Closed(s: State): State {
    s.(conn := s.conn.(closed := true, tokens := s.conn.tokens + 1), tokens := s.tokens + 1)
  }

  /** `sendNacks` as the ack reader calls it: every in-flight message is nacked, oldest first, and the close
      token is emitted, once. */
  function SendNacks(s: State): State {
    if s.conn.closed then s
    else Closed(s.(nacked := s.nacked + s.conn.reqs, outstanding := s.outstanding - |s.conn.reqs|))
  }

  datatype Outcome = Sent | MustWait | Refused | Broke

  /** `Send.Send(m, r)` up to its wait loop or to the loop of `sendNacks`, after the caller incremented
      `outstanding`. */
  function DoSend(s: State, m: Msg, write: Write): (State, Outcome) {
    var s1 := s.(outstanding := s.outstanding + 1);
    if s1.conn.closed then
      (s1.(nacked := s1.nacked + [m], outstanding := s1.outstanding - 1), Refused)
    else
      var s2 := s1.(conn := Push(s1.conn, m, write));
      if write.Failed? then (s2, Broke)
      else if s2.conn.available == 0 then (s2.(conn := FlushAll(s2.conn)), MustWait)
      else (s2, Sent)
  }

  /** What the resend loop has read is taken for the current value. */
  function Restored(s: State): State
    requires s.loaded.Some?
  {
    s.(outstanding := s.loaded.value, missed := s.missed + s.loaded.value - s.outstanding, loaded := None)
  }

  /** The error branch of `reconnect`: what was not resent goes in front and the list is re-sorted. */
  function Requeue(s: State, rem: seq<Msg>): State {
    s.(nacked := SortByTime(rem + s.nacked), pc := Idle)
  }

  /** The loop of `sendNacks` found no further element: the connection closes, and an interrupted resend
      takes its error branch.  What is still in the list has not been nacked. */
  function EndWalk(s: State, unreached: seq<Msg>): State
    requires s.pc.Nacking?
  {
    var t := Closed(s.(dropped := s.dropped + unreached));
    if s.pc.resending then Requeue(t, s.pc.rem) else t.(pc := Idle)
  }

  /** The walk stands on an element that the ack reader has removed from the list. */
  predicate Detached(s: State) {
    s.pc.Nacking? && !s.pc.cursor.Begin? && s.pc.cursor.at < |s.conn.acked|
  }

  function Continue(rem: seq<Msg>): Control {
    if rem == [] then Idle else Resending(rem)
  }

  // ---------------------------------------------------------------------------------------------
  // Steps
  // ---------------------------------------------------------------------------------------------

  predicate Exists(s: State, w: Which) {
    w.Past? ==> w.i < |s.past|
  }

  function Get(s: State, w: Which): Conn
    requires Exists(s, w)
  {
    if w.Current? then s.conn else s.past[w.i]
  }

  function Put(s: State, w: Which, c: Conn): State
    requires Exists(s, w)
  {
    if w.Current? then s.(conn := c) else s.(past := s.past[w.i := c])
  }

  /** The sender does not hold the lock of connection `w`; it does while it walks the in-flight list. */
  predicate Unlocked(s: State, w: Which) {
    w.Current? ==> !s.pc.Nacking?
  }

  predicate Enabled(s: State, step: Step) {
    match step
    case Accept(m, write) =>
      && s.pc.Idle?
      && (forall i | 0 <= i < |s.accepted| :: Before(s.accepted[i], m))
    case Wake =>
      (s.pc.Waiting? || s.pc.ResendWaiting?) && (s.conn.available != 0 || s.conn.closed)
    case TakeToken => s.pc.Idle? && s.tokens > 0
    case Connect(window) => s.pc.Reconnecting? && EffectiveWindow(window) >= 1
    case Load => s.pc.Resending? && s.pc.rem != [] && s.loaded.None?
    case Resend(write) => s.pc.Resending? && s.pc.rem != [] && s.loaded.Some?
    case NackStart => s.pc.Nacking? && s.pc.cursor.Begin?
    case NackOne => s.pc.Nacking? && s.pc.cursor.At? && s.pc.cursor.at < |s.conn.sent|
    case NackNext => s.pc.Nacking? && s.pc.cursor.Left?
    case Break(w) => Exists(s, w)
    case Flush(w, k) => Exists(s, w) && k <= |Get(s, w).buffered|
    case Decode(w, ackLost) => Exists(s, w) && Get(s, w).wire != [] && (ackLost ==> Get(s, w).dead)
    case ReadAcks(w, n) =>
      && Exists(s, w)
      && var c := Get(s, w);
      && c.readerAlive && c.taken == c.popped == 0
      && 1 <= n <= c.acks && n <= c.window
    case PopAck(w) => Exists(s, w) && Get(s, w).taken > 0
    case Credit(w) => Exists(s, w) && Unlocked(s, w) && Get(s, w).taken == 0 && Get(s, w).popped > 0
    case ReaderFails(w) =>
      && Exists(s, w) && Unlocked(s, w)
      && var c := Get(s, w);
      && c.readerAlive && c.taken == c.popped == 0 && c.dead
  }

  /** `reconnect` after `Connect` succeeded: the new `Send` is installed and the nacked list is taken. */
  function Reconnected(s: State, window: nat): State {
    s.(past := s.past + [s.conn], conn := NewConn(window, |s.resolved|), nacked := [], pc := Continue(s.nacked))
  }

  /** The oldest message in flight on `w` has been nacked already, or the walk stands on it. */
  predicate IsLate(s: State, w: Which)
    requires Exists(s, w)
  {
    var c := Get(s, w);
    c.closed || (w.Current? && s.pc.Nacking? && !s.pc.cursor.Begin? && |c.acked| <= s.pc.cursor.at)
  }

  /** Removing the oldest message in flight takes the element under the cursor away from the ones behind it. */
  predicate Cutting(s: State, w: Which) {
    && w.Current? && s.pc.Nacking? && !s.pc.cursor.Begin?
    && s.pc.cursor.at == |s.conn.acked| && |s.conn.reqs| > 1
  }

  /** One iteration of the loop in `readAck`: the oldest in-flight message is acked and removed. */
  function Pop(s: State, w: Which): State
    requires Exists(s, w) && Get(s, w).taken > 0
  {
    var c := Get(s, w);
    var c1 := c.(taken := c.taken - 1, popped := c.popped + 1);
    if c.reqs == [] then Put(s, w, c1)
    else
      var s1 := Put(s, w, c1.(reqs := c.reqs[1..], acked := c.acked + [c.reqs[0]])).(
                  outstanding := s.outstanding - 1, cuts := if Cutting(s, w) then s.cuts + 1 else s.cuts);
      if IsLate(s, w) then s1.(late := s.late + 1) else s1.(resolved := s.resolved + [c.reqs[0]])
  }

  function Next(s: State, step: Step): State
    requires Enabled(s, step)
  {
    match step
    case Accept(m, write) =>
      var (s1, out) := DoSend(s.(accepted := s.accepted + [m]), m, write);
      match out {
        case Broke => s1.(pc := Nacking(Begin, [], false))
        case MustWait => s1.(pc := Waiting)
        case _ => s1
      }
    case Wake =>
      if s.pc.Waiting? then s.(pc := Idle)
      else if s.conn.available != 0 then s.(pc := Continue(s.pc.rem))
      else Requeue(s, s.pc.rem)
    case TakeToken => s.(tokens := s.tokens - 1, pc := Reconnecting)
    case Connect(window) => Reconnected(s, EffectiveWindow(window))
    case Load => s.(loaded := Some(s.outstanding))
    case Resend(write) =>
      var rem := s.pc.rem[1..];
      var (s1, out) := DoSend(Restored(s), s.pc.rem[0], write);
      match out {
        case Broke => s1.(pc := Nacking(Begin, rem, true))
        case Refused => Requeue(s1, rem)
        case MustWait => s1.(pc := ResendWaiting(rem))
        case Sent => s1.(pc := Continue(rem))
      }
    case NackStart =>
      if s.conn.reqs == [] then EndWalk(s, []) else s.(pc := s.pc.(cursor := At(|s.conn.acked|)))
    case NackOne =>
      var i := s.pc.cursor.at;
      s.(nacked := s.nacked + [s.conn.sent[i]], outstanding := s.outstanding - 1, pc := s.pc.(cursor := Left(i)))
    case NackNext =>
      if Detached(s) then EndWalk(s, s.conn.reqs)
      else if s.pc.cursor.at + 1 < |s.conn.sent| then s.(pc := s.pc.(cursor := At(s.pc.cursor.at + 1)))
      else EndWalk(s, [])
    case Break(w) => Put(s, w, Get(s, w).(dead := true))
    case Flush(w, k) =>
      var c := Get(s, w);
      Put(s, w, c.(wire := c.wire + c.buffered[..k], buffered := c.buffered[k..]))
    case Decode(w, ackLost) =>
      var c := Get(s, w);
      Put(s, w, c.(wire := c.wire[1..], decoded := c.decoded + [c.wire[0]],
                   acks := if ackLost then c.acks else c.acks + 1))
    case ReadAcks(w, n) =>
      var c := Get(s, w);
      Put(s, w, c.(acks := c.acks - n, taken := n))
    case PopAck(w) => Pop(s, w)
    case Credit(w) =>
      var c := Get(s, w);
      Put(s, w, c.(available := c.available + c.popped, popped := 0))
    case ReaderFails(w) =>
      var s1 := Put(s, w, Get(s, w).(readerAlive := false));
      if w.Current? then SendNacks(s1) else s1
  }

  /** A run from a fresh connection: every step is enabled where it is taken. */
  predicate IsRun(window: nat, run: seq<Step>)
    decreases |run|, 0
  {
    run == [] || (IsRun(window, run[..|run| - 1]) && Enabled(After(window, run[..|run| - 1]), run[|run| - 1]))
  }

  function After(window: nat, run: seq<Step>): State
    requires IsRun(window, run)
    decreases |run|, 1
  {
    if run == [] then Init(window) else Next(After(window, run[..|run| - 1]), run[|run| - 1])
  }
}
