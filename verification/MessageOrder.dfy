/** Messages ordered by timestamp, as `messages.go` orders them to re-sort the nacked list. */
module MessageOrder {

  /** What the transport needs to know of a message: its TAI64N timestamp and what else it is. */
  datatype Msg = Msg(sec: nat, nano: nat, body: int)

  /** `Messages.Less`: the timestamp of `a` lies before that of `b`. */
  predicate Before(a: Msg, b: Msg) {
    a.sec < b.sec || (a.sec == b.sec && a.nano < b.nano)
  }

  predicate StrictlyIncreasing(s: seq<Msg>) {
    forall i, j | 0 <= i < j < |s| :: Before(s[i], s[j])
  }

  /** `out` is what a correct sort of `s` may return: the same messages, no later one before an earlier one. */
  predicate IsSortOf(out: seq<Msg>, s: seq<Msg>) {
    && multiset(out) == multiset(s)
    && forall i, j | 0 <= i < j < |out| :: !Before(out[j], out[i])
  }

  function Insert(m: Msg, s: seq<Msg>): seq<Msg> {
    if s == [] || !Before(s[0], m) then [m] + s else [s[0]] + Insert(m, s[1..])
  }

  /** `sort.Sort(r.nacked)`. */
  function SortByTime(s: seq<Msg>): seq<Msg> {
    if s == [] then [] else Insert(s[0], SortByTime(s[1..]))
  }

  lemma {:induction false} InsertKeeps(m: Msg, s: seq<Msg>)
    ensures multiset(Insert(m, s)) == multiset([m] + s)
    decreases |s|
  {
    if s != [] && Before(s[0], m) {
      InsertKeeps(m, s[1..]);
      assert s == [s[0]] + s[1..];
    }
  }

  lemma {:induction false} InsertSorts(m: Msg, s: seq<Msg>)
    requires forall i, j | 0 <= i < j < |s| :: !Before(s[j], s[i])
    ensures IsSortOf(Insert(m, s), [m] + s)
    decreases |s|
  {
    InsertKeeps(m, s);
    if s != [] && Before(s[0], m) {
      InsertSorts(m, s[1..]);
      var rest := Insert(m, s[1..]);
      forall j | 0 <= j < |rest|
        ensures !Before(rest[j], s[0])
      {
        assert rest[j] in multiset([m] + s[1..]);
      }
    }
  }

  /** Sorting yields an ordered permutation. */
  lemma {:induction false} SortSorts(s: seq<Msg>)
    ensures IsSortOf(SortByTime(s), s)
    decreases |s|
  {
    if s != [] {
      SortSorts(s[1..]);
      InsertSorts(s[0], SortByTime(s[1..]));
      assert s == [s[0]] + s[1..];
    }
  }

  /** Distinct timestamps leave a sort no freedom: whatever the algorithm, the result is the one
      increasing arrangement. */
  lemma {:induction false} SortIsUnique(out: seq<Msg>, s: seq<Msg>, want: seq<Msg>)
    requires StrictlyIncreasing(want)
    requires multiset(want) == multiset(s)
    requires IsSortOf(out, s)
    ensures out == want
    decreases |want|
  {
    if want == [] {
      assert |multiset(out)| == 0;
    } else {
      assert want[0] in multiset(out) && |out| == |multiset(out)| == |multiset(want)| > 0;
      assert out[0] in multiset(want);
      var k :| 0 <= k < |out| && out[k] == want[0];
      var i :| 0 <= i < |want| && want[i] == out[0];
      assert out[0] == want[0];
      assert out == [out[0]] + out[1..] && want == [want[0]] + want[1..];
      assert multiset(out[1..]) == multiset(out) - multiset{out[0]};
      assert multiset(want[1..]) == multiset(want) - multiset{want[0]};
      SortIsUnique(out[1..], out[1..], want[1..]);
    }
  }

  /** The use made of it in `reconnect`: the unsent tail was put in front of the returned messages. */
  lemma SortRestores(front: seq<Msg>, back: seq<Msg>)
    requires StrictlyIncreasing(front + back)
    ensures SortByTime(back + front) == front + back
  {
    SortSorts(back + front);
    assert multiset(back + front) == multiset(front + back);
    SortIsUnique(SortByTime(back + front), back + front, front + back);
  }
}
