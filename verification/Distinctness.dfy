/** Counting members through sets: a sequence has no repeats exactly when it is as long as the
    set of its members. */
module Distinctness {
  function ToSet<T>(s: seq<T>): (r: set<T>) {
    set x | x in s
  }

  ghost predicate Distinct<T>(s: seq<T>) {
    forall i, j :: 0 <= i < j < |s| ==> s[i] != s[j]
  }

  lemma {:induction false} CountsDistinct<T>(s: seq<T>)
    ensures |ToSet(s)| <= |s|
    ensures |ToSet(s)| == |s| <==> Distinct(s)
  {
    if s != [] {
      var front, last := s[..|s|-1], s[|s|-1];
      CountsDistinct(front);
      assert s == front + [last];
      assert ToSet(s) == ToSet(front) + {last};
      if last in front {
        var i :| 0 <= i < |front| && front[i] == last;
        assert s[i] == s[|s|-1];
      }
    }
  }

  /** Two repeat-free sequences with the same members have the same multiset. */
  lemma {:induction false} SameMembersPermute<T>(s: seq<T>, t: seq<T>)
    requires Distinct(s) && Distinct(t) && ToSet(s) == ToSet(t)
    ensures multiset(s) == multiset(t) && |s| == |t|
  {
    DistinctMultiset(s);
    DistinctMultiset(t);
    CountsDistinct(s);
    CountsDistinct(t);
    forall x ensures multiset(s)[x] == multiset(t)[x] {
      assert x in ToSet(s) <==> x in ToSet(t);
    }
  }

  lemma {:induction false} DistinctMultiset<T>(s: seq<T>)
    requires Distinct(s)
    ensures forall x :: multiset(s)[x] == if x in ToSet(s) then 1 else 0
  {
    if s != [] {
      var front, last := s[..|s|-1], s[|s|-1];
      DistinctMultiset(front);
      assert s == front + [last];
    }
  }
}
