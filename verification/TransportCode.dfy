/** The methods of `Send` and `ReliableSend` as they update their fields, each shown to perform the steps
    of the protocol that carry its name. */
module TransportCode {

  import opened MessageOrder
  import opened Transport
  import opened TransportSafety
  import opened TransportTheorems

  /** An element of the list of in-flight messages, known by its position among all that were ever pushed. */
  datatype Element = Element(at: nat, m: Msg)

  datatype Link = Nil | To(e: Element)

  class ReliableSend {
    var outstanding: int
    var nacked: seq<Msg>
    var tokens: nat  // occupancy of the `closed` channel

    constructor ()
      ensures outstanding == 0 && nacked == [] && tokens == 0
    {
      outstanding, nacked, tokens := 0, [], 0;
    }

    method Ack(m: Msg)
      modifies this`outstanding
      ensures outstanding == old(outstanding) - 1
    {
      outstanding := outstanding - 1;
    }

    method Nack(m: Msg)
      modifies this`outstanding, this`nacked
      ensures outstanding == old(outstanding) - 1 && nacked == old(nacked) + [m]
    {
      outstanding := outstanding - 1;
      nacked := nacked + [m];
    }

    method OnClosed()
      modifies this`tokens
      ensures tokens == old(tokens) + 1
    {
      tokens := tokens + 1;
    }
  }

  class Send {
    const r: ReliableSend
    const window: nat
    var available: int
    var reqs: seq<Msg>      // oldest first; `PushFront` appends here, `Back` is element 0
    var removed: nat        // how many elements were removed from `reqs`, which gives the others their position
    var closed: bool
    var buffered: seq<Msg>  // in the stream encoder
    var unread: nat         // ack bytes on the socket
    var taken: nat          // local to the reader goroutine: acks of one read, not looked at yet, ...
    var popped: nat         // ... and looked at but not credited

    /** These objects hold what protocol state `s` says about its current connection. */
    ghost predicate Shows(s: State)
      reads this, r
    {
      && window == s.conn.window && available == s.conn.available && reqs == s.conn.reqs
      && closed == s.conn.closed && buffered == s.conn.buffered && removed == |s.conn.acked|
      && unread == s.conn.acks && taken == s.conn.taken && popped == s.conn.popped
      && r.outstanding == s.outstanding && r.nacked == s.nacked && r.tokens == s.tokens
    }

    constructor (r: ReliableSend, window: int)
      requires EffectiveWindow(window) >= 1
      ensures this.r == r && this.window == this.available == EffectiveWindow(window)
      ensures reqs == [] && removed == 0 && !closed && buffered == [] && unread == taken == popped == 0
    {
      this.r := r;
      this.window, this.available := EffectiveWindow(window), EffectiveWindow(window);
      this.reqs, this.removed, this.closed, this.buffered := [], 0, false, [];
      this.unread, this.taken, this.popped := 0, 0, 0;
    }

    /** `reqs.Back()`. */
    function Back(): (p: Link)
      reads this`reqs, this`removed
    {
      if reqs == [] then Nil else To(Element(removed, reqs[0]))
    }

    /** `e.Prev()`, which is nil on an element that is no longer in the list. */
    function Prev(e: Element): (p: Link)
      reads this`reqs, this`removed
    {
      if removed <= e.at && e.at + 1 < removed + |reqs| then To(Element(e.at + 1, reqs[e.at + 1 - removed])) else Nil
    }

    /** One iteration of the loop in `readAck`. */
    method PopAck(ghost s: State)
      requires Shows(s) && s.conn.taken > 0
      modifies this`reqs, this`removed, this`taken, this`popped, r`outstanding
      ensures Shows(Pop(s, Current))
    {
      taken, popped := taken - 1, popped + 1;
      if reqs == [] {
        return;
      }
      r.Ack(reqs[0]);
      reqs, removed := reqs[1..], removed + 1;
    }

    /** The start of `readAck`: `n` ack bytes are there, and the reader takes them. */
    method ReadAcks(n: nat, ghost s: State)
      requires Shows(s) && Enabled(s, Step.ReadAcks(Current, n))
      modifies this`unread, this`taken
      ensures Shows(Next(s, Step.ReadAcks(Current, n)))
    {
      unread, taken := unread - n, n;
    }

    /** The acks of one `Read`: `taken` bytes of which the first is `first`.  The loop pops one message per byte
        and the credits come back at the end, as that many `PopAck` steps and one `Credit` step do. */
    method ReadAck(first: char, ghost s: State) returns (unsynced: bool)
      requires Shows(s) && s.conn.popped == 0
      modifies this`available, this`reqs, this`removed, this`taken, this`popped, r`outstanding
      ensures unsynced <==> old(taken) > 0 && first != 'k'
      ensures unsynced ==> Shows(s)
      ensures !unsynced ==> Shows(AllCredited(PopAll(s)))
    {
      ghost var t := s;
      while taken > 0
        invariant Shows(t) && t.conn.taken <= s.conn.taken
        invariant t.conn.taken < s.conn.taken ==> first == 'k'
        invariant t.conn.taken == s.conn.taken ==> t == s
        invariant PopAll(t) == PopAll(s)
      {
        if first != 'k' {
          return true;
        }
        PopAck(t);
        t := Pop(t, Current);
      }
      available, popped := available + popped, 0;
      return false;
    }

    /** `sendNacks` as `backgroundAck` calls it, the only goroutine that takes elements out of the list. */
    method SendNacks(ghost s: State)
      requires Shows(s)
      modifies this`closed, r
      ensures Shows(Transport.SendNacks(s))
    {
      if closed {
        return;
      }
      var p := Back();
      while p.To?
        invariant p.To? ==> removed <= p.e.at < removed + |reqs| && p.e.m == reqs[p.e.at - removed]
        invariant r.nacked == s.nacked + reqs[..if p.To? then p.e.at - removed else |reqs|]
        invariant r.outstanding == s.outstanding - (if p.To? then p.e.at - removed else |reqs|)
        invariant r.tokens == s.tokens
        decreases if p.To? then removed + |reqs| - p.e.at else 0
      {
        ghost var k := p.e.at - removed;
        assert reqs[..k + 1] == reqs[..k] + [reqs[k]];
        r.Nack(p.e.m);
        p := Prev(p.e);
      }
      assert reqs[..|reqs|] == reqs;
      closed := true;
      r.OnClosed();
    }

    /** What the reader goroutine may do while the sender is between two statements of `sendNacks`: it reads
        acks and removes elements, as many as it gets to, and stops before it would need the lock. */
    method Interleave(ghost s: State) returns (ghost steps: seq<Step>, ghost t: State)
      requires Shows(s) && OnWalk(s)
      modifies this`reqs, this`removed, this`unread, this`taken, this`popped, r`outstanding
      ensures Shows(t) && LeadsTo(s, steps, t) && SameWalk(s, t)
      ensures forall i | 0 <= i < |steps| :: ByReader(steps[i])
    {
      steps, t := [], s;
      var n: nat := *;
      while n > 0
        invariant Shows(t) && LeadsTo(s, steps, t) && SameWalk(s, t)
        invariant forall i | 0 <= i < |steps| :: ByReader(steps[i])
        decreases n
      {
        n := n - 1;
        var k: nat := *;
        if taken > 0 {
          ghost var step := Step.PopAck(Current);
          PopKeepsWalk(s, t);
          PopAck(t);
          Append(s, steps, t, step);
          steps, t := steps + [step], Next(t, step);
        } else if popped == 0 && 1 <= k <= unread && k <= window {
          ghost var step := Step.ReadAcks(Current, k);
          ReadAcks(k, t);
          Append(s, steps, t, step);
          steps, t := steps + [step], Next(t, step);
        }
      }
    }

    /** `sendNacks` as `transmit` calls it, with the reader goroutine at work between its statements.  All the
        steps lead from the failed write to the end of the walk, and the connection is closed there. */
    method SendNacksShared(ghost s: State) returns (ghost steps: seq<Step>, ghost t: State)
      requires Shows(s) && OnWalk(s) && s.pc.cursor.Begin?
      modifies this`closed, this`reqs, this`removed, this`unread, this`taken, this`popped, r
      ensures LeadsTo(s, steps, t) && WalkIsOver(t) && Shows(Finished(t))
      ensures forall i | 0 <= i < |steps| :: ByReader(steps[i]) || BySender(steps[i])
    {
      hide Next, Enabled, WalkIsOver, Finished, ByReader;
      steps, t := Interleave(s);
      var p := Back();
      StartStep(t);
      if p.To? {
        Append(s, steps, t, NackStart);
        steps, t := steps + [NackStart], Next(t, NackStart);
      }
      while p.To?
        invariant Shows(t) && OnWalk(t) && LeadsTo(s, steps, t)
        invariant if p.To? then StandsOn(t, p.e) else WalkIsOver(t)
        invariant forall i | 0 <= i < |steps| :: ByReader(steps[i]) || BySender(steps[i])
        decreases if p.To? then |t.conn.sent| - p.e.at else 0
      {
        steps, t, p := NackAndMove(s, steps, t, p.e);
      }
      Close(t);
    }

    /** The body of the loop. */
    method NackAndMove(ghost s: State, ghost before: seq<Step>, ghost u: State, e: Element)
      returns (ghost steps: seq<Step>, ghost t: State, p: Link)
      requires Shows(u) && OnWalk(u) && LeadsTo(s, before, u) && StandsOn(u, e)
      requires forall i | 0 <= i < |before| :: ByReader(before[i]) || BySender(before[i])
      modifies this`reqs, this`removed, this`unread, this`taken, this`popped, r`outstanding, r`nacked
      ensures Shows(t) && OnWalk(t) && LeadsTo(s, steps, t)
      ensures if p.To? then StandsOn(t, p.e) && p.e.at == e.at + 1 else WalkIsOver(t)
      ensures |t.conn.sent| == |u.conn.sent|
      ensures forall i | 0 <= i < |steps| :: ByReader(steps[i]) || BySender(steps[i])
    {
      hide Next, Enabled, WalkIsOver, ByReader;
      steps, t := Advance(s, before, u);
      NackStep(t, e.at);
      r.Nack(e.m);
      Append(s, steps, t, NackOne);
      steps, t := steps + [NackOne], Next(t, NackOne);
      steps, t := Advance(s, steps, t);
      NextStep(t, e.at);
      p := Prev(e);
      if p.To? {
        Append(s, steps, t, NackNext);
        steps, t := steps + [NackNext], Next(t, NackNext);
      }
    }

    /** The last statements of `sendNacks`. */
    method Close(ghost t: State)
      requires Shows(t) && t.pc.Nacking?
      modifies this`closed, r`tokens
      ensures Shows(Finished(t))
    {
      closed := true;
      r.OnClosed();
    }

    /** A stretch of the run in which only the reader goroutine moves. */
    method Advance(ghost s: State, ghost before: seq<Step>, ghost u: State)
      returns (ghost steps: seq<Step>, ghost t: State)
      requires Shows(u) && OnWalk(u) && LeadsTo(s, before, u)
      requires forall i | 0 <= i < |before| :: ByReader(before[i]) || BySender(before[i])
      modifies this`reqs, this`removed, this`unread, this`taken, this`popped, r`outstanding
      ensures Shows(t) && LeadsTo(s, steps, t) && SameWalk(u, t)
      ensures forall i | 0 <= i < |steps| :: ByReader(steps[i]) || BySender(steps[i])
    {
      ghost var more;
      more, t := Interleave(u);
      Joined(s, before, u, more, t);
      steps := before + more;
    }

    /** `Send.Send(m, r)` after the caller counted `m` as outstanding, up to the first `ackCond.Wait`.
        `write` is what the encoder did, `broken` the result of its flush, and `pc` where a failed write
        leaves the sender. */
    method SendMessage(m: Msg, write: Write, broken: bool, ghost s: State, ghost pc: Control)
      returns (out: Outcome, ghost steps: seq<Step>, ghost t: State)
      requires Shows(s.(outstanding := s.outstanding + 1)) && broken == s.conn.dead
      requires s.conn.sent == s.conn.acked + s.conn.reqs && (!s.conn.closed ==> s.conn.readerAlive)
      requires pc.Nacking? && pc.cursor.Begin?
      modifies this`available, this`reqs, this`removed, this`closed, this`buffered
      modifies this`unread, this`taken, this`popped, r
      ensures out == DoSend(s, m, write).1
      ensures out != Broke ==> Shows(DoSend(s, m, write).0)
      ensures out == Broke ==>
        LeadsTo(DoSend(s, m, write).0.(pc := pc), steps, t) && WalkIsOver(t) && Shows(Finished(t))
    {
      steps, t := [], s;
      if closed {
        r.Nack(m);
        return Refused, steps, t;
      }
      reqs := reqs + [m];
      available := available - 1;
      if write != Failed(false) {
        buffered := buffered + [m];
      }
      if write.Failed? {
        ghost var u := DoSend(s, m, write).0.(pc := pc);
        assert u.conn.sent == u.conn.acked + u.conn.reqs;
        steps, t := SendNacksShared(u);
        return Broke, steps, t;
      }
      if available == 0 {
        if !broken {
          buffered := [];
        }
        return MustWait, steps, t;
      }
      return Sent, steps, t;
    }
  }

  predicate ByReader(step: Step) {
    step == PopAck(Current) || (step.ReadAcks? && step.w.Current?)
  }

  predicate BySender(step: Step) {
    step.NackStart? || step.NackOne? || step.NackNext?
  }

  /** The sender is in the loop of `sendNacks`, on an open connection whose reader goroutine is running. */
  predicate OnWalk(s: State) {
    && s.pc.Nacking? && !s.conn.closed && s.conn.readerAlive
    && s.conn.sent == s.conn.acked + s.conn.reqs
    && (!s.pc.cursor.Begin? ==> s.pc.cursor.at < |s.conn.sent|)
  }

  /** The walk of `s` is at element `e` and has not nacked it. */
  predicate StandsOn(s: State, e: Element) {
    s.pc.Nacking? && s.pc.cursor == At(e.at) && e.at < |s.conn.sent| && e.m == s.conn.sent[e.at]
  }

  lemma StartStep(s: State)
    requires OnWalk(s) && s.pc.cursor.Begin?
    ensures Enabled(s, NackStart)
    ensures s.conn.reqs == [] ==> WalkIsOver(s)
    ensures s.conn.reqs != [] ==>
      var t := Next(s, NackStart);
      t == s.(pc := s.pc.(cursor := At(|s.conn.acked|))) && StandsOn(t, Element(|s.conn.acked|, s.conn.reqs[0]))
  {
  }

  lemma NackStep(s: State, at: nat)
    requires OnWalk(s) && s.pc.cursor == At(at)
    ensures Enabled(s, NackOne)
    ensures Next(s, NackOne) == s.(nacked := s.nacked + [s.conn.sent[at]], outstanding := s.outstanding - 1,
                                   pc := s.pc.(cursor := Left(at)))
  {
  }

  lemma NextStep(s: State, at: nat)
    requires OnWalk(s) && s.pc.cursor == Left(at)
    ensures Enabled(s, NackNext)
    ensures !(|s.conn.acked| <= at && at + 1 < |s.conn.sent|) ==> WalkIsOver(s)
    ensures |s.conn.acked| <= at && at + 1 < |s.conn.sent| ==>
      var t := Next(s, NackNext);
      && t == s.(pc := s.pc.(cursor := At(at + 1)))
      && StandsOn(t, Element(at + 1, s.conn.reqs[at + 1 - |s.conn.acked|]))
  {
  }

  /** Only the reader moved between `s` and `t`. */
  predicate SameWalk(s: State, t: State) {
    && OnWalk(t) && t.pc == s.pc && t.nacked == s.nacked && t.tokens == s.tokens
    && t.conn.sent == s.conn.sent && t.conn.window == s.conn.window
  }

  lemma PopKeepsWalk(s: State, t: State)
    requires SameWalk(s, t) && t.conn.taken > 0
    ensures SameWalk(s, Pop(t, Current))
  {
    if t.conn.reqs != [] {
      assert t.conn.reqs == [t.conn.reqs[0]] + t.conn.reqs[1..];
    }
  }

  lemma {:induction false} Joined(s: State, a: seq<Step>, t: State, b: seq<Step>, u: State)
    requires LeadsTo(s, a, t) && LeadsTo(t, b, u)
    ensures LeadsTo(s, a + b, u)
    decreases |a|
  {
    hide Enabled, Next;
    if a == [] {
      assert a + b == b;
    } else {
      Joined(Next(s, a[0]), a[1..], t, b, u);
      assert (a + b)[1..] == a[1..] + b;
    }
  }

  lemma Append(s: State, steps: seq<Step>, t: State, step: Step)
    requires LeadsTo(s, steps, t) && Enabled(t, step)
    ensures LeadsTo(s, steps + [step], Next(t, step))
  {
    hide Enabled, Next;
    assert LeadsTo(Next(t, step), [], Next(t, step));
    assert [step][1..] == [];
    Joined(s, steps, t, [step], Next(t, step));
  }

  /** All acks that were read are popped one after the other. */
  ghost function PopAll(s: State): State
    decreases s.conn.taken
  {
    if s.conn.taken == 0 then s else PopAll(Pop(s, Current))
  }

  ghost function AllCredited(s: State): State {
    s.(conn := s.conn.(available := s.conn.available + s.conn.popped, popped := 0))
  }

  /** The error branch of `reconnect`. */
  method RequeueRest(r: ReliableSend, nacked: seq<Msg>, idx: nat, ghost s: State)
    requires idx < |nacked| && r.nacked == s.nacked
    modifies r`nacked
    ensures r.nacked == Requeue(s, nacked[idx + 1..]).nacked
    ensures StrictlyIncreasing(s.nacked + nacked[idx + 1..]) ==> r.nacked == s.nacked + nacked[idx + 1..]
  {
    r.nacked := SortByTime(nacked[idx + 1..] + r.nacked);
    if StrictlyIncreasing(s.nacked + nacked[idx + 1..]) {
      SortRestores(s.nacked, nacked[idx + 1..]);
    }
  }

  lemma PopIs(s: State)
    requires s.conn.taken > 0
    ensures var t, c := Pop(s, Current).conn, s.conn;
            && t.taken == c.taken - 1 && t.popped == c.popped + 1
            && t.reqs == (if c.reqs == [] then [] else c.reqs[1..])
            && t.acked == c.acked + (if c.reqs == [] then [] else [c.reqs[0]])
            && Pop(s, Current).outstanding == s.outstanding - (if c.reqs == [] then 0 else 1)
  {
    assert s.conn.acked + [] == s.conn.acked;
  }

  /** Popping takes the oldest messages, as many as there are acks. */
  lemma {:induction false} PopAllPops(s: State)
    ensures var n := if s.conn.taken <= |s.conn.reqs| then s.conn.taken else |s.conn.reqs|;
            && PopAll(s).conn.reqs == s.conn.reqs[n..]
            && PopAll(s).conn.acked == s.conn.acked + s.conn.reqs[..n]
            && PopAll(s).conn.popped == s.conn.popped + s.conn.taken
            && PopAll(s).outstanding == s.outstanding - n
    decreases s.conn.taken
  {
    hide Pop;
    if s.conn.taken > 0 {
      PopIs(s);
      PopAllPops(Pop(s, Current));
      if s.conn.reqs != [] {
        var n := if s.conn.taken <= |s.conn.reqs| then s.conn.taken else |s.conn.reqs|;
        assert s.conn.reqs[..n] == [s.conn.reqs[0]] + s.conn.reqs[1..][..n - 1];
      }
    }
  }
}
