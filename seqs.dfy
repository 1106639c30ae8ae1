/** Order-preserving filtering of sequences, the shape of the host's `stream().filter(...)`. */
module Seqs {
  import opened Wrappers

  /** The elements of `s` that satisfy `keep`, in their original order. */
  function Filter<T>(s: seq<T>, keep: T -> bool): (r: seq<T>)
    ensures |r| <= |s|
    ensures forall x :: x in r ==> x in s && keep(x)
  {
    if s == [] then []
    else Filter(s[..|s| - 1], keep) + (if keep(s[|s| - 1]) then [s[|s| - 1]] else [])
  }

  lemma {:induction false} FilterComplete<T>(s: seq<T>, keep: T -> bool, x: T)
    requires x in s && keep(x)
    ensures x in Filter(s, keep)
  {
    if x != s[|s| - 1] {
      assert s == s[..|s| - 1] + [s[|s| - 1]];
      FilterComplete(s[..|s| - 1], keep, x);
    }
  }

  lemma FilterMember<T>(s: seq<T>, keep: T -> bool, x: T)
    ensures x in Filter(s, keep) <==> x in s && keep(x)
  {
    if x in s && keep(x) {
      FilterComplete(s, keep, x);
    }
  }

  /** The first kept element is the first element of `s` that `keep` accepts. */
  lemma {:induction false} FilterFirst<T>(s: seq<T>, keep: T -> bool, i: nat)
    requires i < |s| && keep(s[i])
    requires forall j :: 0 <= j < i ==> !keep(s[j])
    ensures Filter(s, keep) != [] && Filter(s, keep)[0] == s[i]
  {
    var init := s[..|s| - 1];
    if i == |s| - 1 {
      FilterNone(init, keep);
      assert Filter(s, keep) == [] + [s[i]];
    } else {
      assert init[i] == s[i];
      FilterFirst(init, keep, i);
    }
  }

  /** Nothing is kept when `keep` accepts no element. */
  lemma {:induction false} FilterNone<T>(s: seq<T>, keep: T -> bool)
    requires forall j :: 0 <= j < |s| ==> !keep(s[j])
    ensures Filter(s, keep) == []
  {
    if s != [] {
      FilterNone(s[..|s| - 1], keep);
    }
  }

  /** The values of the present entries of `s`, in order. */
  function Somes<T>(s: seq<Option<T>>): (r: seq<T>)
    ensures |r| <= |s|
  {
    if s == [] then [] else Somes(s[..|s| - 1]) + (if s[|s| - 1].Some? then [s[|s| - 1].value] else [])
  }

  lemma SomesStep<T>(s: seq<Option<T>>, i: nat)
    requires i < |s|
    ensures Somes(s[..i + 1]) == Somes(s[..i]) + (if s[i].Some? then [s[i].value] else [])
  {
    assert s[..i + 1][..i] == s[..i];
  }

  /** Every present entry is kept. */
  lemma {:induction false} SomesComplete<T>(s: seq<Option<T>>, i: nat)
    requires i < |s| && s[i].Some?
    ensures s[i].value in Somes(s)
  {
    if i < |s| - 1 {
      SomesComplete(s[..|s| - 1], i);
    }
  }

  /** Nothing but present entries is kept. */
  lemma {:induction false} SomesSound<T>(s: seq<Option<T>>, x: T)
    requires x in Somes(s)
    ensures Some(x) in s
  {
    var init := s[..|s| - 1];
    if x in Somes(init) {
      SomesSound(init, x);
      assert Some(x) in init;
    } else {
      assert s[|s| - 1] == Some(x);
    }
  }

  /** The values of the present entries of `s`, as a set. */
  function SomesSet<T>(s: seq<Option<T>>): set<T> {
    set i | 0 <= i < |s| && s[i].Some? :: s[i].value
  }

  lemma SomesSetStep<T>(s: seq<Option<T>>, i: nat)
    requires i < |s|
    ensures SomesSet(s[..i + 1]) == SomesSet(s[..i]) + (if s[i].Some? then {s[i].value} else {})
  {
    var before := s[..i];
    var after := s[..i + 1];
    forall x | x in SomesSet(after)
      ensures x in SomesSet(before) || (s[i].Some? && x == s[i].value)
    {
      var j :| 0 <= j < |after| && after[j].Some? && after[j].value == x;
      if j < i {
        assert before[j] == after[j];
      }
    }
    forall x | x in SomesSet(before)
      ensures x in SomesSet(after)
    {
      var j :| 0 <= j < |before| && before[j].Some? && before[j].value == x;
      assert after[j] == before[j];
    }
    if s[i].Some? {
      assert after[i] == s[i];
    }
  }
}
