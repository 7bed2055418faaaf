/** Small facts about sequences shared by the models. */
module Sequences {

  datatype Option<+T> = None | Some(value: T)

  ghost predicate NoDuplicates<T>(s: seq<T>) {
    forall i, j :: 0 <= i < j < |s| ==> s[i] != s[j]
  }

  /** The elements `keep` accepts, in order: a list comprehension with a condition. */
  function Filter<T>(s: seq<T>, keep: T -> bool): seq<T> {
    if s == [] then [] else Filter(s[..|s| - 1], keep) + if keep(s[|s| - 1]) then [s[|s| - 1]] else []
  }

  lemma {:induction false} FilterMembers<T>(s: seq<T>, keep: T -> bool)
    ensures forall x :: x in Filter(s, keep) <==> x in s && keep(x)
  {
    if s != [] {
      FilterMembers(s[..|s| - 1], keep);
      assert s == s[..|s| - 1] + [s[|s| - 1]];
    }
  }

  lemma {:induction false} FilterNoDuplicates<T>(s: seq<T>, keep: T -> bool)
    requires NoDuplicates(s)
    ensures NoDuplicates(Filter(s, keep))
  {
    if s != [] {
      FilterNoDuplicates(s[..|s| - 1], keep);
      FilterMembers(s[..|s| - 1], keep);
    }
  }

  /** A duplicate-free list of copies of `x` and at most one of them. */
  lemma SoleMember<T>(s: seq<T>, x: T)
    requires NoDuplicates(s)
    ensures s == [] || s == [x] || exists y :: y in s && y != x
  {
    if |s| > 1 {
      assert s[0] in s && s[1] in s;
    } else if |s| == 1 {
      assert s[0] in s && s == [s[0]];
    }
  }

  lemma Nonempty<T>(s: seq<T>)
    ensures s == [] || exists x :: x in s
  {
    if s != [] { assert s[0] in s; }
  }

  function Elements<T>(s: seq<T>): set<T> {
    set x | x in s
  }

  /** Comparing the size of the set of elements with the length detects a duplicate. */
  lemma {:induction false} SetSizeDetectsDuplicates<T>(s: seq<T>)
    ensures |Elements(s)| <= |s|
    ensures |Elements(s)| == |s| <==> NoDuplicates(s)
  {
    if s == [] {
      assert Elements(s) == {};
    } else {
      var rest, last := s[..|s| - 1], s[|s| - 1];
      SetSizeDetectsDuplicates(rest);
      assert s == rest + [last];
      assert Elements(s) == Elements(rest) + {last};
      if NoDuplicates(s) {
        assert last !in rest;
      }
      if |Elements(s)| == |s| {
        assert last !in Elements(rest);
      }
    }
  }

  /** A condition that holds at one position keeps that element alone. */
  lemma {:induction false} FilterSole<T>(s: seq<T>, keep: T -> bool, i: nat)
    requires i < |s| && forall j :: 0 <= j < |s| ==> (keep(s[j]) <==> j == i)
    ensures Filter(s, keep) == [s[i]]
  {
    var rest := s[..|s| - 1];
    if i == |s| - 1 {
      assert keep(s[i]);
      FilterNone(rest, keep);
    } else {
      assert rest[i] == s[i] && !keep(s[|s| - 1]);
      FilterSole(rest, keep, i);
    }
  }

  lemma {:induction false} FilterNone<T>(s: seq<T>, keep: T -> bool)
    requires forall j :: 0 <= j < |s| ==> !keep(s[j])
    ensures Filter(s, keep) == []
  {
    if s != [] { FilterNone(s[..|s| - 1], keep); }
  }

  lemma {:induction false} FilterSeveral<T>(s: seq<T>, keep: T -> bool, i: nat, j: nat)
    requires i < j < |s| && keep(s[i]) && keep(s[j])
    ensures |Filter(s, keep)| >= 2
  {
    var rest := s[..|s| - 1];
    if j < |s| - 1 {
      FilterSeveral(rest, keep, i, j);
    } else {
      FilterMembers(rest, keep);
      assert rest[i] in rest && rest[i] in Filter(rest, keep);
    }
  }

  /** The first element that passes is the first that is kept. */
  lemma {:induction false} FilterHead<T>(s: seq<T>, keep: T -> bool, i: nat)
    requires i < |s| && keep(s[i]) && forall j :: 0 <= j < i ==> !keep(s[j])
    ensures Filter(s, keep) != [] && Filter(s, keep)[0] == s[i]
  {
    var rest := s[..|s| - 1];
    if i < |rest| { FilterHead(rest, keep, i); } else { FilterNone(rest, keep); }
  }
}
