/** The table of attribute names that have a number. */
module Symbols {

  import opened Wrappers
  import opened Bits
  import opened Decimals

  /** The names of version 1, by index; index 0 is reserved. */
  const V1: seq<seq<byte>> := [
    [45],                                        // -
    [109, 101, 115, 115, 97, 103, 101],          // message
    [118, 97, 108, 117, 101],                    // value
    [115, 111, 117, 114, 99, 101],               // source
    [104, 111, 115, 116],                        // host
    [102, 97, 99, 105, 108, 105, 116, 121],      // facility
    [115, 101, 118, 101, 114, 105, 116, 121],    // severity
    [116, 97, 103],                              // tag
    [112, 105, 100],                             // pid
    [110, 97, 109, 101],                         // name
    [116, 121, 112, 101]                         // type
  ]

  /** `FindIndex` on a table of names: the number of a name, never the reserved 0. */
  function FindIn(names: seq<seq<byte>>, name: seq<byte>): (r: Option<nat>)
    ensures r.Some? ==> 0 < r.value < |names| && names[r.value] == name
  {
    if |names| <= 1 then None
    else if names[|names| - 1] == name then Some(|names| - 1)
    else FindIn(names[..|names| - 1], name)
  }

  /** Every name from index 1 on is there once. */
  predicate Distinct(names: seq<seq<byte>>) {
    forall i, j | 1 <= i < j < |names| :: names[i] != names[j]
  }

  lemma {:induction false} FindsEach(names: seq<seq<byte>>, i: nat)
    requires Distinct(names) && 1 <= i < |names|
    ensures FindIn(names, names[i]) == Some(i)
    decreases |names|
  {
    if i < |names| - 1 {
      FindsEach(names[..|names| - 1], i);
    }
  }

  lemma {:induction false} FindsNone(names: seq<seq<byte>>, name: seq<byte>)
    requires forall i | 1 <= i < |names| :: names[i] != name
    ensures FindIn(names, name) == None
    decreases |names|
  {
    if |names| > 1 {
      FindsNone(names[..|names| - 1], name);
    }
  }

  /** `FromIndex`; `None` is a panic. */
  function NameOf(names: seq<seq<byte>>, i: nat): Option<seq<byte>> {
    if i > |names| then Some([115, 121, 109, 98, 111, 108] + Decimal(i))
    else if i < |names| then Some(names[i])
    else None
  }

  /** The table in use: numbers come back from the names they stand for, and only these. */
  lemma NumberRoundTrip(names: seq<seq<byte>>, i: nat)
    requires Distinct(names)
    ensures NameOf(names, i) == None <==> i == |names|
    ensures 1 <= i < |names| ==> FindIn(names, NameOf(names, i).value) == Some(i)
  {
    if 1 <= i < |names| {
      FindsEach(names, i);
    }
  }

  lemma V1Distinct()
    ensures Distinct(V1)
  {
    var l := [1, 7, 5, 6, 4, 8, 8, 3, 3, 4, 4];
    assert forall i | 0 <= i < 11 :: |V1[i]| == l[i];
    assert V1[5][0] == 102 && V1[6][0] == 115 && V1[7][0] == 116 && V1[8][0] == 112;
    assert V1[4][0] == 104 && V1[9][0] == 110 && V1[10][0] == 116;
  }

  /** The table as an object. */
  class Table {
    var strToIndex: map<seq<byte>, nat>
    var indexToStr: seq<seq<byte>>

    ghost predicate Valid()
      reads this
    {
      && |indexToStr| >= 1 && Distinct(indexToStr)
      && (forall i | 1 <= i < |indexToStr| :: indexToStr[i] in strToIndex && strToIndex[indexToStr[i]] == i)
      && (forall s | s in strToIndex :: 1 <= strToIndex[s] < |indexToStr| && indexToStr[strToIndex[s]] == s)
    }

    constructor ()
      ensures Valid() && indexToStr == [[45]]
    {
      strToIndex, indexToStr := map[], [[45]];
    }

    /** `Append`: stops, as the source panics, at the first name that is there already. */
    method Append(names: seq<seq<byte>>) returns (ok: bool)
      requires Valid()
      modifies this
      ensures Valid() && old(indexToStr) <= indexToStr <= old(indexToStr) + names
      ensures ok <==> Distinct(old(indexToStr) + names)
      ensures ok ==> indexToStr == old(indexToStr) + names
    {
      ghost var before := indexToStr;
      for k := 0 to |names|
        invariant Valid() && indexToStr == before + names[..k]
      {
        var name := names[k];
        if name in strToIndex {
          assert (before + names)[|before| + k] == name && (before + names)[strToIndex[name]] == name;
          return false;
        }
        strToIndex := strToIndex[name := |indexToStr|];
        indexToStr := indexToStr + [name];
      }
      assert names[..|names|] == names;
      return true;
    }

    method FromIndex(i: nat) returns (name: Option<seq<byte>>)
      requires Valid()
      ensures name == NameOf(indexToStr, i)
    {
      if i > |indexToStr| {
        var digits := FormatDecimal(i);
        return Some([115, 121, 109, 98, 111, 108] + digits);
      }
      return if i == |indexToStr| then None else Some(indexToStr[i]);
    }

    method FindIndex(name: seq<byte>) returns (r: Option<nat>)
      requires Valid()
      ensures r == FindIn(indexToStr, name)
    {
      if name in strToIndex {
        FindsEach(indexToStr, strToIndex[name]);
        return Some(strToIndex[name]);
      }
      FindsNone(indexToStr, name);
      return None;
    }
  }
}
