/** The promises of the reliable transport, over every run. */
module TransportTheorems {

  import opened Wrappers
  import opened MessageOrder
  import opened Transport
  import opened TransportSafety

  /** `s` is the state after some run, over any number of connections, that started with a usable window. */
  ghost predicate Reachable(s: State) {
    exists window: nat, run :: window >= 1 && IsRun(window, run) && After(window, run) == s
  }

  lemma ReachableInv(s: State)
    requires Reachable(s)
    ensures Inv(s)
  {
    var window: nat, run :| window >= 1 && IsRun(window, run) && After(window, run) == s;
    RunKeeps(window, run);
  }

  lemma InitIsReachable(window: nat)
    requires window >= 1
    ensures Reachable(Init(window))
  {
    assert IsRun(window, []) && After(window, []) == Init(window);
  }

  /** Reachability is closed under steps. */
  lemma NextIsReachable(s: State, step: Step)
    requires Reachable(s) && Enabled(s, step)
    ensures Reachable(Next(s, step))
  {
    var window: nat, run :| window >= 1 && IsRun(window, run) && After(window, run) == s;
    var longer := run + [step];
    assert longer[..|longer| - 1] == run;
    assert IsRun(window, longer) && After(window, longer) == Next(s, step);
  }

  // ---------------------------------------------------------------------------------------------
  // What becomes of an accepted message
  // ---------------------------------------------------------------------------------------------

  /** Conservation: every accepted message is held, or was acked, or was dropped, and only one of these.
      What is held keeps the order of acceptance, and what was acked some peer has decoded. */
  lemma EveryMessageIsAccountedFor(s: State)
    requires Reachable(s)
    ensures CursorInv(s)
    ensures multiset(s.accepted) == multiset(Held(s)) + multiset(s.resolved) + multiset(s.dropped)
    ensures StrictlyIncreasing(Held(s))
    ensures forall m | m in s.resolved :: Seen(s, m)
  {
    ReachableInv(s);
  }

  lemma SeenSomewhere(s: State, m: Msg)
    requires Seen(s, m)
    ensures exists w :: Exists(s, w) && m in Get(s, w).decoded
  {
    var w := if m in s.conn.decoded then Current else var i :| 0 <= i < |s.past| && m in s.past[i].decoded; Past(i);
    assert Exists(s, w) && m in Get(s, w).decoded;
  }

  lemma InOneOf(all: seq<Msg>, a: seq<Msg>, b: seq<Msg>, c: seq<Msg>, m: Msg)
    requires multiset(all) == multiset(a) + multiset(b) + multiset(c) && StrictlyIncreasing(all) && m in all
    ensures m in a || m in b || m in c
    ensures m in c ==> m !in a && m !in b
  {
    assert m in multiset(all);
    if m in c && (m in a || m in b) {
      assert multiset(all)[m] >= 2;
      TwiceIsNotIncreasing(all, m);
    }
  }

  lemma PlacesDiffer(s: seq<Msg>, i: nat, j: nat)
    requires StrictlyIncreasing(s) && i < |s| && j < |s| && i != j
    ensures s[i] != s[j]
  {
    assert Before(s[if i < j then i else j], s[if i < j then j else i]);
  }

  lemma SamePlace(s: seq<Msg>, i: nat, j: nat)
    requires StrictlyIncreasing(s) && i < |s| && j < |s|
    ensures s[i] == s[j] ==> i == j
  {
    if i != j { PlacesDiffer(s, i, j); }
  }

  lemma {:induction false} TwiceIsNotIncreasing(s: seq<Msg>, m: Msg)
    requires StrictlyIncreasing(s)
    ensures multiset(s)[m] <= 1
    decreases |s|
  {
    if s != [] {
      assert s == [s[0]] + s[1..];
      TwiceIsNotIncreasing(s[1..], m);
      if s[0] == m && multiset(s[1..])[m] > 0 {
        assert m in s[1..];
        var k :| 0 <= k < |s[1..]| && s[1..][k] == m;
        PlacesDiffer(s, 0, k + 1);
      }
    }
  }

  /** At every moment, also in the middle of a resend, an accepted message is still held, or some peer has
      returned it from `Generate`, or a walk over the in-flight list was cut short in front of it. */
  lemma NothingElseIsLost(s: State, k: nat)
    requires Reachable(s) && k < |s.accepted|
    ensures CursorInv(s)
    ensures var m := s.accepted[k];
            && (m in Held(s) || m in s.dropped || exists w :: Exists(s, w) && m in Get(s, w).decoded)
            && (m in s.dropped ==> m !in Held(s) && m !in s.resolved)
  {
    ReachableInv(s);
    var m := s.accepted[k];
    InOneOf(s.accepted, Held(s), s.resolved, s.dropped, m);
    if m in s.resolved { SeenSomewhere(s, m); }
  }

  /** As long as no ack overtakes a walk, an accepted message is still held or some peer has returned it. */
  lemma NothingIsLost(s: State, k: nat)
    requires Reachable(s) && k < |s.accepted| && s.cuts == 0
    ensures CursorInv(s) && s.dropped == []
    ensures s.accepted[k] in Held(s) || exists w :: Exists(s, w) && s.accepted[k] in Get(s, w).decoded
  {
    ReachableInv(s);
    NothingElseIsLost(s, k);
  }

  /** The step at which messages are lost: the sender leaves an element that an ack has meanwhile removed
      from the list, so that `e.Prev()` is nil, while other messages are in flight. */
  predicate CutsShort(s: State, step: Step) {
    step.NackNext? && Detached(s) && s.conn.reqs != []
  }

  /** Exactly this step drops messages, and it drops all that are in flight. */
  lemma DropsExactly(s: State, step: Step)
    requires Inv(s) && Enabled(s, step)
    ensures Next(s, step).dropped == s.dropped + (if CutsShort(s, step) then s.conn.reqs else [])
  {
    hide Inv, SortByTime;
    assert s.dropped + [] == s.dropped;
  }

  lemma {:induction false} PrefixIsRun(window: nat, run: seq<Step>, i: nat)
    requires IsRun(window, run) && i <= |run|
    ensures IsRun(window, run[..i])
    ensures i < |run| ==> Enabled(After(window, run[..i]), run[i])
    decreases |run|
  {
    if i == |run| {
      assert run[..i] == run;
    } else if i < |run| - 1 {
      PrefixIsRun(window, run[..|run| - 1], i);
      assert run[..|run| - 1][..i] == run[..i];
    }
  }

  ghost predicate StepOf(window: nat, run: seq<Step>, i: nat, bad: (State, Step) -> bool)
    requires IsRun(window, run) && i < |run|
  {
    PrefixIsRun(window, run, i);
    bad(After(window, run[..i]), run[i])
  }

  /** Step `bad` occurs nowhere in a run. */
  ghost predicate Never(window: nat, run: seq<Step>, bad: (State, Step) -> bool)
    requires IsRun(window, run)
  {
    forall i: nat | i < |run| :: !StepOf(window, run, i, bad)
  }

  lemma StepOfPrefix(window: nat, run: seq<Step>, i: nat, bad: (State, Step) -> bool)
    requires IsRun(window, run) && i < |run|
    ensures var init := run[..|run| - 1];
            && IsRun(window, init)
            && StepOf(window, run, i, bad) == if i < |init| then StepOf(window, init, i, bad)
                                              else bad(After(window, init), run[|run| - 1])
  {
    PrefixIsRun(window, run, |run| - 1);
    hide IsRun, Enabled, After;
    if i < |run| - 1 { assert run[..|run| - 1][..i] == run[..i]; }
  }

  lemma NeverSnoc(window: nat, run: seq<Step>, bad: (State, Step) -> bool)
    requires IsRun(window, run) && run != []
    ensures var init := run[..|run| - 1];
            Never(window, run, bad) <==> Never(window, init, bad) && !bad(After(window, init), run[|run| - 1])
  {
    var init := run[..|run| - 1];
    StepOfPrefix(window, run, |run| - 1, bad);
    hide IsRun, Enabled, After, StepOf;
    forall i: nat | i < |run|
      ensures i < |init| ==> StepOf(window, init, i, bad) == StepOf(window, run, i, bad)
    {
      StepOfPrefix(window, run, i, bad);
    }
  }

  /** When messages are dropped: a run drops none if and only if no walk in it was cut short. */
  lemma {:induction false} DroppedExactlyWhen(window: nat, run: seq<Step>)
    requires window >= 1 && IsRun(window, run)
    ensures After(window, run).dropped == [] <==> Never(window, run, CutsShort)
    decreases |run|
  {
    if run != [] {
      var init := run[..|run| - 1];
      DroppedExactlyWhen(window, init);
      NeverSnoc(window, run, CutsShort);
      RunKeeps(window, init);
      DropsExactly(After(window, init), run[|run| - 1]);
    }
  }

  /** An ack takes the element under the cursor away from others behind it. */
  predicate Overtakes(s: State, step: Step) {
    step == PopAck(Current) && Cutting(s, Current)
  }

  lemma CutsCount(s: State, step: Step)
    requires Inv(s) && Enabled(s, step)
    ensures Next(s, step).cuts == s.cuts + (if Overtakes(s, step) then 1 else 0)
  {
    hide History, SortByTime;
    if step.PopAck? {
      ConnIs(s, step.w);
      AckFindsDecoded(Get(s, step.w));
    }
  }

  lemma {:induction false} CutsExactlyWhen(window: nat, run: seq<Step>)
    requires window >= 1 && IsRun(window, run)
    ensures After(window, run).cuts == 0 <==> Never(window, run, Overtakes)
    decreases |run|
  {
    if run != [] {
      var init := run[..|run| - 1];
      CutsExactlyWhen(window, init);
      NeverSnoc(window, run, Overtakes);
      RunKeeps(window, init);
      CutsCount(After(window, init), run[|run| - 1]);
    }
  }

  lemma DroppedIsMissing(all: seq<Msg>, held: seq<Msg>, resolved: seq<Msg>, dropped: seq<Msg>)
    requires multiset(all) == multiset(held) + multiset(resolved) + multiset(dropped) && dropped != []
    ensures all != resolved + held
  {
    assert |multiset(all)| == |held| + |resolved| + |dropped|;
    assert |multiset(all)| == |all|;
  }

  lemma InvertedIsUnordered(all: seq<Msg>, resolved: seq<Msg>, held: seq<Msg>)
    requires StrictlyIncreasing(all) && Inverted(resolved, held)
    ensures all != resolved + held
  {
    var whole := resolved + held;
    var p, m :| 0 <= p < |resolved| && m in resolved[p + 1..] + held && Before(m, resolved[p]);
    assert whole[p + 1..] == resolved[p + 1..] + held;
    var q :| 0 <= q < |whole[p + 1..]| && whole[p + 1..][q] == m;
    assert Before(whole[p + 1 + q], whole[p]) && !Before(whole[p], whole[p + 1 + q]);
  }

  /** A message that was overtaken spoils the order for good. */
  lemma ScarredIsUnordered(s: State)
    requires CursorInv(s) && Books(s) && Scarred(s) && !s.pc.Nacking?
    ensures s.accepted != s.resolved + Held(s)
  {
    hide Inverted, StrictlyIncreasing, Held, AllSeen;
    if s.dropped != [] {
      DroppedIsMissing(s.accepted, Held(s), s.resolved, s.dropped);
    } else {
      InvertedIsUnordered(s.accepted, s.resolved, Held(s));
    }
  }

  lemma HeldWhenIdle(s: State)
    requires Inv(s) && s.pc.Idle?
    ensures Held(s) == (if s.conn.closed then s.nacked else s.conn.reqs)
    ensures !s.conn.closed ==> s.nacked == []
  {
    hide Ordered, Scarred, TokenInv, ControlInv, CounterInv, Conns;
  }

  lemma OrderedOrNot(s: State)
    requires Inv(s) && !s.pc.Nacking?
    ensures s.cuts == 0 <==> s.accepted == s.resolved + Held(s)
  {
    hide Held, InFlight, Inverted, AllSeen, TokenInv, ControlInv, CounterInv, Conns;
    if s.cuts > 0 { ScarredIsUnordered(s); }
  }

  lemma PrefixAndRest(all: seq<Msg>, a: seq<Msg>, b: seq<Msg>)
    ensures all == a + b <==> a <= all && b == all[|a|..]
  {
    if a <= all && b == all[|a|..] { assert all == a + b; }
  }

  /** No loss, no reordering: when `drain` is at its select, what the sender holds (in flight, or nacked
      after a failure) is exactly the unacked suffix of the accepted messages, if and only if no ack has
      overtaken a walk over the in-flight list since the start. */
  lemma HeldIsUnackedSuffix(s: State)
    requires Reachable(s) && s.pc.Idle?
    ensures var held := if s.conn.closed then s.nacked else s.conn.reqs;
            && (s.cuts == 0 <==> s.resolved <= s.accepted && held == s.accepted[|s.resolved|..])
            && (!s.conn.closed ==> s.nacked == [])
  {
    hide Inv, Reachable, Held;
    ReachableInv(s);
    CursorIs(s);
    HeldWhenIdle(s);
    OrderedOrNot(s);
    PrefixAndRest(s.accepted, s.resolved, Held(s));
  }

  lemma CursorIs(s: State)
    requires Inv(s)
    ensures CursorInv(s)
  {
  }

  /** The losing run: of three accepted messages two were acked while the sender walked the list after a
      failed write; the third is then neither held nor decoded anywhere, and will never be resent. */
  lemma WalkLosesMessage(m0: Msg, m1: Msg, m2: Msg) returns (t: State)
    requires Before(m0, m1) && Before(m1, m2) && Before(m0, m2)
    ensures Reachable(t) && t.pc.Idle? && t.accepted == [m0, m1, m2]
    ensures t.nacked == [m0, m1] && t.dropped == [m2] && t.conn.closed
    ensures t.past == [] && m2 !in t.conn.decoded + t.conn.wire + t.conn.buffered
  {
    hide Reachable;
    t := TwoDecoded(m0, m1);
    t := ThirdFails(t, m0, m1, m2);
    t := BothAcked(t, m0, m1, m2);
    t := WalkIsCut(t, m0, m1, m2);
  }

  /** Window 3: two messages are accepted and flushed, ... */
  lemma TwoFlushed(m0: Msg, m1: Msg) returns (t: State)
    requires Before(m0, m1)
    ensures Reachable(t)
    ensures t == State(Conn(3, 1, [m0, m1], false, 0, 0, true, [], [m0, m1], [], 0, false, [m0, m1], [], 0, 0), [],
                       [], 2, 0, Idle, [m0, m1], [], 0, [], 0, None, 0)
  {
    hide Reachable;
    InitIsReachable(3);
    t := Taken(Init(3), Accept(m0, Done));
    var c := Conn(3, 2, [m0], false, 0, 0, true, [m0], [], [], 0, false, [m0], [], 0, 0);
    assert t == State(c, [], [], 1, 0, Idle, [m0], [], 0, [], 0, None, 0);
    t := SecondFlushed(t, c, m0, m1);
  }

  lemma SecondFlushed(s: State, c: Conn, m0: Msg, m1: Msg) returns (t: State)
    requires Reachable(s) && s == State(c, [], [], 1, 0, Idle, [m0], [], 0, [], 0, None, 0) && Before(m0, m1)
    requires c == Conn(3, 2, [m0], false, 0, 0, true, [m0], [], [], 0, false, [m0], [], 0, 0)
    ensures Reachable(t)
    ensures t == State(Conn(3, 1, [m0, m1], false, 0, 0, true, [], [m0, m1], [], 0, false, [m0, m1], [], 0, 0), [],
                       [], 2, 0, Idle, [m0, m1], [], 0, [], 0, None, 0)
  {
    hide Reachable;
    t := Taken(s, Accept(m1, Done));
    assert t.accepted == t.conn.reqs == t.conn.buffered == t.conn.sent == [m0, m1];
    t := Taken(t, Flush(Current, 2));
  }

  /** ... and decoded, their acks are read, and the socket breaks. */
  lemma TwoDecoded(m0: Msg, m1: Msg) returns (t: State)
    requires Before(m0, m1)
    ensures Reachable(t)
    ensures t == State(Conn(3, 1, [m0, m1], false, 2, 0, true, [], [], [m0, m1], 0, true, [m0, m1], [], 0, 0), [],
                       [], 2, 0, Idle, [m0, m1], [], 0, [], 0, None, 0)
  {
    hide Reachable;
    t := TwoFlushed(m0, m1);
    t := Taken(t, Decode(Current, false));
    t := Taken(t, Decode(Current, false));
    t := Taken(t, ReadAcks(Current, 2));
    t := Taken(t, Break(Current));
  }

  /** The write of a third message fails; the walk nacks the first one and goes on to the second. */
  lemma ThirdFails(s: State, m0: Msg, m1: Msg, m2: Msg) returns (t: State)
    requires Before(m0, m1) && Before(m1, m2) && Before(m0, m2) && Reachable(s)
    requires s == State(Conn(3, 1, [m0, m1], false, 2, 0, true, [], [], [m0, m1], 0, true, [m0, m1], [], 0, 0), [],
                        [], 2, 0, Idle, [m0, m1], [], 0, [], 0, None, 0)
    ensures Reachable(t)
    ensures t == State(Conn(3, 0, [m0, m1, m2], false, 2, 0, true, [], [], [m0, m1], 0, true, [m0, m1, m2], [], 0, 0),
                       [], [m0], 2, 0, Nacking(At(1), [], false), [m0, m1, m2], [], 0, [], 0, None, 0)
  {
    hide Reachable;
    t := Taken(s, Accept(m2, Failed(false)));
    t := Taken(t, NackStart);
    t := Taken(t, NackOne);
    t := Taken(t, NackNext);
  }

  /** Both acks arrive, ... */
  lemma BothAcked(s: State, m0: Msg, m1: Msg, m2: Msg) returns (t: State)
    requires Reachable(s)
    requires s == State(Conn(3, 0, [m0, m1, m2], false, 2, 0, true, [], [], [m0, m1], 0, true, [m0, m1, m2], [], 0, 0),
                        [], [m0], 2, 0, Nacking(At(1), [], false), [m0, m1, m2], [], 0, [], 0, None, 0)
    ensures Reachable(t)
    ensures t == State(Conn(3, 0, [m2], false, 0, 2, true, [], [], [m0, m1], 0, true, [m0, m1, m2], [m0, m1], 0, 0),
                       [], [m0], 0, 0, Nacking(At(1), [], false), [m0, m1, m2], [], 2, [], 1, None, 0)
  {
    hide Reachable;
    t := Taken(s, PopAck(Current));
    assert t.conn.reqs == [m1, m2] && t.conn.acked == [m0];
    t := Taken(t, PopAck(Current));
    assert t.conn.reqs == [m2] && t.conn.acked == [m0, m1];
  }

  /** ... the second message is nacked, and there the list ends for the walk. */
  lemma WalkIsCut(s: State, m0: Msg, m1: Msg, m2: Msg) returns (t: State)
    requires Reachable(s)
    requires s == State(Conn(3, 0, [m2], false, 0, 2, true, [], [], [m0, m1], 0, true, [m0, m1, m2], [m0, m1], 0, 0),
                        [], [m0], 0, 0, Nacking(At(1), [], false), [m0, m1, m2], [], 2, [], 1, None, 0)
    ensures Reachable(t) && t.pc.Idle? && t.accepted == [m0, m1, m2] && t.past == [] && t.conn.closed
    ensures t.nacked == [m0, m1] && t.dropped == [m2]
    ensures t.conn.decoded == [m0, m1] && t.conn.wire == t.conn.buffered == []
  {
    hide Reachable;
    t := Taken(s, NackOne);
    t := Taken(t, NackNext);
  }

  lemma Taken(s: State, step: Step) returns (t: State)
    requires Reachable(s) && Enabled(s, step)
    ensures t == Next(s, step) && Reachable(t)
  {
    NextIsReachable(s, step);
    t := Next(s, step);
  }

  // ---------------------------------------------------------------------------------------------
  // What the peers see
  // ---------------------------------------------------------------------------------------------

  /** In every run, each peer returns accepted messages only, in the order of acceptance. */
  lemma PeersSeeOrder(s: State, w: Which)
    requires Reachable(s) && Exists(s, w)
    ensures var c := Get(s, w);
            StrictlyIncreasing(c.decoded) && forall m | m in c.decoded :: m in s.accepted
  {
    ReachableInv(s);
    var c := Get(s, w);
    assert Good(c, s.accepted);
    assert c.decoded == c.sent[..|c.decoded|];
  }

  /** Without an overtaking ack, what one peer decodes is a gap-free block of the accepted messages, and
      the blocks of all peers together cover every resolved message. */
  lemma PeersSeeBlocks(s: State, w: Which)
    requires Reachable(s) && Exists(s, w) && s.cuts == 0
    ensures var c := Get(s, w);
            && c.base + |c.decoded| <= |s.accepted|
            && c.decoded == s.accepted[c.base..c.base + |c.decoded|]
    ensures forall k | 0 <= k < |s.resolved| :: Delivered(s, k)
  {
    hide Reachable, Held, InFlight, TokenInv, ControlInv, CounterInv, Inverted;
    ReachableInv(s);
    var c := Get(s, w);
    assert Good(c, s.accepted) && Contiguous(c, s.accepted);
    assert c.decoded == c.sent[..|c.decoded|];
    forall k | 0 <= k < |s.resolved|
      ensures Delivered(s, k)
    {
      ResolvedIsDelivered(s, k);
    }
  }

  lemma ResolvedIsDelivered(s: State, k: nat)
    requires Inv(s) && s.cuts == 0 && k < |s.resolved|
    ensures Delivered(s, k)
  {
    hide Held, InFlight, TokenInv, ControlInv, CounterInv, Inverted, StrictlyIncreasing, Decoded, ConnInv;
    assert Seen(s, s.resolved[k]) && s.resolved[k] == s.accepted[k];
    if s.resolved[k] in s.conn.decoded {
      DecodedAt(s.conn, s.accepted, k);
    } else {
      var i :| 0 <= i < |s.past| && s.resolved[k] in s.past[i].decoded;
      DecodedAt(s.past[i], s.accepted, k);
    }
  }

  /** The peer of `c` returned accepted message number `k` from its `Generate`. */
  predicate Decoded(c: Conn, k: nat) {
    c.base <= k < c.base + |c.decoded|
  }

  predicate Delivered(s: State, k: nat) {
    Decoded(s.conn, k) || exists i | 0 <= i < |s.past| :: Decoded(s.past[i], k)
  }

  lemma DecodedAt(c: Conn, accepted: seq<Msg>, k: nat)
    requires Good(c, accepted) && Contiguous(c, accepted) && StrictlyIncreasing(accepted)
    requires k < |accepted| && accepted[k] in c.decoded
    ensures Decoded(c, k)
  {
    assert c.decoded == c.sent[..|c.decoded|];
    var j :| 0 <= j < |c.decoded| && c.decoded[j] == accepted[k];
    assert accepted[c.base + j] == accepted[k];
    SamePlace(accepted, c.base + j, k);
  }

  /** Ack attribution on every connection, open or not: popped messages are a prefix of the decoded ones
      and those of the sent ones. */
  lemma AcksAreAttributed(s: State, w: Which)
    requires Reachable(s) && Exists(s, w)
    ensures Get(s, w).acked <= Get(s, w).decoded <= Get(s, w).sent
    ensures Get(s, w).sent == Get(s, w).acked + Get(s, w).reqs
  {
    ReachableInv(s);
    var c := Get(s, w);
    assert Good(c, s.accepted);
    assert c.acked == c.sent[..|c.acked|] && c.decoded == c.sent[..|c.decoded|];
  }

  /** Every ack byte that is consumed resolves exactly the oldest unresolved message, and the peer of that
      connection has already decoded it. */
  lemma AckResolvesOldest(s: State, w: Which)
    requires Reachable(s) && Enabled(s, PopAck(w))
    ensures var c, d := Get(s, w), Get(Next(s, PopAck(w)), w);
            && c.reqs != [] && |c.acked| < |c.decoded| && c.reqs[0] == c.decoded[|c.acked|]
            && d.acked == c.acked + [c.reqs[0]] && d.reqs == c.reqs[1..]
  {
    ReachableInv(s);
    assert Good(Get(s, w), s.accepted);
    AckFindsDecoded(Get(s, w));
  }

  /** Credit conservation: `available` plus the in-flight count plus the popped but uncredited acks is the
      window; at most `window` messages are unacked. */
  lemma CreditsAreConserved(s: State, w: Which)
    requires Reachable(s) && Exists(s, w)
    ensures var c := Get(s, w);
            && c.available + |c.reqs| + c.popped == c.window
            && 0 <= c.available <= c.window
            && |c.sent| - |c.acked| == |c.reqs| <= c.window
  {
    ReachableInv(s);
    assert Good(Get(s, w), s.accepted);
  }

  // ---------------------------------------------------------------------------------------------
  // The window never gets stuck
  // ---------------------------------------------------------------------------------------------

  predicate WaitingOnLive(s: State) {
    (s.pc.Waiting? || s.pc.ResendWaiting?) && !s.conn.dead && !s.conn.closed
  }

  /** How much the peer and the ack reader still have to do before every credit is back. */
  function Pending(c: Conn): nat {
    4 * |c.wire| + 3 * c.acks + 2 * c.taken + c.popped
  }

  /** The next step of the peer or of the ack reader. */
  function Serve(c: Conn): Step {
    if c.taken > 0 then PopAck(Current)
    else if c.popped > 0 then Credit(Current)
    else if c.acks > 0 then ReadAcks(Current, 1)
    else Decode(Current, false)
  }

  /** While `Send` waits on a live connection everything is flushed and something is on its way; the
      peer or the ack reader can move, and moving brings the wait closer to its end. */
  lemma WindowIsNotStuck(s: State)
    requires Inv(s) && WaitingOnLive(s) && s.conn.available == 0
    ensures s.conn.buffered == []
    ensures s.conn.wire != [] || s.conn.acks + s.conn.taken + s.conn.popped > 0
    ensures Enabled(s, Serve(s.conn))
    ensures var t := Next(s, Serve(s.conn)); WaitingOnLive(t) && Pending(t.conn) < Pending(s.conn)
  {
    var c := s.conn;
    assert c.sent == c.decoded + c.wire;
    assert |c.sent| == |c.acked| + |c.reqs|;
    if c.taken > 0 {
      AckFindsDecoded(c);
    }
  }

  /** So peer and reader alone end every wait on a live connection. */
  lemma {:induction false} WaitEnds(s: State) returns (steps: seq<Step>, t: State)
    requires Inv(s) && WaitingOnLive(s)
    ensures LeadsTo(s, steps, t) && Enabled(t, Wake)
    ensures forall i | 0 <= i < |steps| ::
      steps[i].Decode? || steps[i].ReadAcks? || steps[i].PopAck? || steps[i].Credit?
    decreases Pending(s.conn)
  {
    hide Inv, Enabled, Next;
    if s.conn.available != 0 {
      WakeIsEnabled(s);
      return [], s;
    }
    WindowIsNotStuck(s);
    var step := Serve(s.conn);
    StepKeeps(s, step);
    steps, t := WaitEnds(Next(s, step));
    steps := [step] + steps;
  }

  lemma WakeIsEnabled(s: State)
    requires WaitingOnLive(s) && s.conn.available != 0
    ensures Enabled(s, Wake)
  {
  }

  predicate LeadsTo(s: State, steps: seq<Step>, t: State)
    decreases |steps|
  {
    if steps == [] then s == t else Enabled(s, steps[0]) && LeadsTo(Next(s, steps[0]), steps[1..], t)
  }

  /** In every run: a sender waiting for the window on a live connection can be woken. */
  lemma WaitsEndInEveryRun(s: State)
    requires Reachable(s) && WaitingOnLive(s)
    ensures exists steps, t :: LeadsTo(s, steps, t) && Enabled(t, Wake)
  {
    ReachableInv(s);
    var steps, t := WaitEnds(s);
  }

  // ---------------------------------------------------------------------------------------------
  // Close tokens and the outstanding counter
  // ---------------------------------------------------------------------------------------------

  /** Each connection emits one close token, at the moment it closes. */
  lemma OneTokenPerConnection(s: State, w: Which)
    requires Reachable(s) && Exists(s, w)
    ensures Get(s, w).tokens == (if Get(s, w).closed then 1 else 0)
  {
    ReachableInv(s);
    assert Good(Get(s, w), s.accepted);
  }

  /** No stranded nacks: whenever `drain` is at its select with a closed connection or messages to resend,
      the token that makes it reconnect is there to be taken. */
  lemma NacksAreNotStranded(s: State)
    requires Reachable(s) && s.pc.Idle? && (s.conn.closed || s.nacked != [])
    ensures s.tokens == 1 && Enabled(s, TakeToken)
  {
    ReachableInv(s);
  }

  /** The one-slot channel never blocks the goroutine that closes a connection. */
  lemma CloseNeverBlocks(s: State, step: Step)
    requires Reachable(s) && Enabled(s, step)
    ensures var t := Next(s, step);
            t.tokens > s.tokens ==> s.tokens == 0 && t.tokens == 1 && !s.conn.closed && t.conn.closed
  {
    ReachableInv(s);
    StepKeeps(s, step);
  }

  /** `outstanding` is the number of messages in flight on the open connection, or still to be nacked by a
      walk, plus the dropped ones, which nobody ever counts back, minus the late acks, plus the decrements that
      were overwritten by `outstanding++`. */
  lemma OutstandingCounts(s: State)
    requires Reachable(s)
    ensures CursorInv(s) && s.outstanding == |InFlight(s)| + |s.dropped| - s.late + s.missed && s.missed >= 0
    ensures s.pc.Idle? ==>
      s.outstanding == (if s.conn.closed then 0 else |s.conn.reqs|) + |s.dropped| - s.late + s.missed
  {
    ReachableInv(s);
  }

  /** The increment in the resend loop stores a value that was read before `outstanding` changed. */
  predicate Overwrites(s: State, step: Step) {
    step.Resend? && s.loaded.Some? && s.loaded.value != s.outstanding
  }

  /** Exactly then decrements are missed: those since the value was read. */
  lemma MissesExactly(s: State, step: Step)
    requires Inv(s) && Enabled(s, step)
    ensures Next(s, step).missed
         == s.missed + (if Overwrites(s, step) then s.loaded.value - s.outstanding else 0)
    ensures Overwrites(s, step) ==> s.loaded.value > s.outstanding
  {
    hide History, Conns, ControlInv, TokenInv, SortByTime;
  }

  lemma {:induction false} MissedExactlyWhen(window: nat, run: seq<Step>)
    requires window >= 1 && IsRun(window, run)
    ensures After(window, run).missed == 0 <==> Never(window, run, Overwrites)
    ensures After(window, run).missed >= 0
    decreases |run|
  {
    if run != [] {
      var init := run[..|run| - 1];
      MissedExactlyWhen(window, init);
      NeverSnoc(window, run, Overwrites);
      RunKeeps(window, init);
      MissesExactly(After(window, init), run[|run| - 1]);
    }
  }

  /** It happens: of two messages that are resent, the first is acked between the reading and the writing of
      `outstanding++` for the second; then one message is in flight, and two are counted. */
  lemma AckIsMissed(m0: Msg, m1: Msg) returns (t: State)
    requires Before(m0, m1)
    ensures Reachable(t) && t.pc.Idle? && !t.conn.closed
    ensures t.accepted == [m0, m1] && t.resolved == [m0] && t.conn.reqs == [m1] && t.dropped == [] && t.late == 0
    ensures t.outstanding == 2 && t.missed == 1
  {
    hide Reachable;
    var c := Conn(3, 1, [m0, m1], true, 0, 0, false, [], [m0, m1], [], 0, true, [m0, m1], [], 1, 0);
    t := TwoToResend(m0, m1, c);
    t := FirstResent(t, m0, m1, c);
    t := FirstAckRead(t, m0, m1, c);
    t := SecondCounted(t, m0, m1, c);
  }

  /** The connection breaks with two messages in flight, and there is a new one. */
  lemma TwoToResend(m0: Msg, m1: Msg, c: Conn) returns (t: State)
    requires Before(m0, m1)
    requires c == Conn(3, 1, [m0, m1], true, 0, 0, false, [], [m0, m1], [], 0, true, [m0, m1], [], 1, 0)
    ensures Reachable(t)
    ensures t == State(NewConn(3, 0), [c], [], 0, 0, Resending([m0, m1]), [m0, m1], [], 0, [], 0, None, 0)
  {
    hide Reachable;
    t := TwoFlushed(m0, m1);
    t := Taken(t, Break(Current));
    t := Taken(t, ReaderFails(Current));
    assert t.conn == c && t.nacked == [m0, m1];
    t := Taken(t, TakeToken);
    t := Taken(t, Connect(3));
  }

  lemma FirstResent(s: State, m0: Msg, m1: Msg, c: Conn) returns (t: State)
    requires Reachable(s)
    requires s == State(NewConn(3, 0), [c], [], 0, 0, Resending([m0, m1]), [m0, m1], [], 0, [], 0, None, 0)
    ensures Reachable(t)
    ensures t == State(Conn(3, 2, [m0], false, 0, 0, true, [], [m0], [], 0, false, [m0], [], 0, 0), [c],
                       [], 1, 0, Resending([m1]), [m0, m1], [], 0, [], 0, None, 0)
  {
    hide Reachable;
    t := Taken(s, Load);
    t := Taken(t, Resend(Done));
    assert [m0, m1][1..] == [m1] && t.conn.buffered == [m0];
    t := Taken(t, Flush(Current, 1));
  }

  lemma FirstAckRead(s: State, m0: Msg, m1: Msg, c: Conn) returns (t: State)
    requires Reachable(s)
    requires s == State(Conn(3, 2, [m0], false, 0, 0, true, [], [m0], [], 0, false, [m0], [], 0, 0), [c],
                        [], 1, 0, Resending([m1]), [m0, m1], [], 0, [], 0, None, 0)
    ensures Reachable(t)
    ensures t == State(Conn(3, 2, [m0], false, 1, 0, true, [], [], [m0], 0, false, [m0], [], 0, 0), [c],
                       [], 1, 0, Resending([m1]), [m0, m1], [], 0, [], 0, Some(1), 0)
  {
    hide Reachable;
    t := Taken(s, Decode(Current, false));
    t := Taken(t, ReadAcks(Current, 1));
    t := Taken(t, Load);
  }

  lemma SecondCounted(s: State, m0: Msg, m1: Msg, c: Conn) returns (t: State)
    requires Reachable(s)
    requires s == State(Conn(3, 2, [m0], false, 1, 0, true, [], [], [m0], 0, false, [m0], [], 0, 0), [c],
                        [], 1, 0, Resending([m1]), [m0, m1], [], 0, [], 0, Some(1), 0)
    ensures Reachable(t) && t.pc.Idle? && !t.conn.closed
    ensures t.accepted == [m0, m1] && t.resolved == [m0] && t.conn.reqs == [m1] && t.dropped == [] && t.late == 0
    ensures t.outstanding == 2 && t.missed == 1
  {
    hide Reachable;
    t := Taken(s, PopAck(Current));
    assert t.outstanding == 0 && t.conn.reqs == [] && t.resolved == [m0];
    t := Taken(t, Resend(Done));
  }

  /** An ack is late exactly when its message was nacked before, or was just being nacked, or its
      connection had closed. */
  lemma LateExactly(s: State, step: Step)
    requires Inv(s) && Enabled(s, step)
    ensures Next(s, step).late == s.late + (if step.PopAck? && IsLate(s, step.w) then 1 else 0)
  {
    hide History, SortByTime;
    if step.PopAck? {
      ConnIs(s, step.w);
      AckFindsDecoded(Get(s, step.w));
    }
  }
}
