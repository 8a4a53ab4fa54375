/** Sums over the rows of a table, and the sizes of sets. */
module Sums {
  function Sum<T>(s: seq<T>, part: T -> int): int {
    if s == [] then 0 else Sum(s[..|s| - 1], part) + part(s[|s| - 1])
  }

  lemma {:induction false} SumUpdate<T>(s: seq<T>, part: T -> int, i: nat, x: T)
    requires i < |s|
    ensures Sum(s[i := x], part) == Sum(s, part) - part(s[i]) + part(x)
  {
    var t := s[i := x];
    if i == |s| - 1 {
      assert t[..|s| - 1] == s[..|s| - 1];
    } else {
      assert t[..|s| - 1] == s[..|s| - 1][i := x];
      SumUpdate(s[..|s| - 1], part, i, x);
    }
  }

  lemma SumAppend<T>(s: seq<T>, part: T -> int, x: T)
    ensures Sum(s + [x], part) == Sum(s, part) + part(x)
  {
    assert (s + [x])[..|s|] == s;
  }

  lemma {:induction false} SumRemove<T>(s: seq<T>, part: T -> int, i: nat)
    requires i < |s|
    ensures Sum(s[..i] + s[i + 1..], part) == Sum(s, part) - part(s[i])
  {
    var t := s[..i] + s[i + 1..];
    if i == |s| - 1 {
      assert t == s[..|s| - 1];
    } else {
      var init := s[..|s| - 1];
      assert t[..|t| - 1] == init[..i] + init[i + 1..] && t[|t| - 1] == s[|s| - 1];
      SumRemove(init, part, i);
    }
  }

  lemma {:induction false} SumConcat<T>(s: seq<T>, t: seq<T>, part: T -> int)
    ensures Sum(s + t, part) == Sum(s, part) + Sum(t, part)
  {
    if t == [] {
      assert s + t == s;
    } else {
      SumConcat(s, t[..|t| - 1], part);
      assert (s + t)[..|s + t| - 1] == s + t[..|t| - 1];
    }
  }

  lemma SubsetOfSameSize<T>(a: set<T>, b: set<T>)
    requires a <= b && |a| >= |b|
    ensures a == b
  {
    assert |b - a| == |b| - |a|;
  }
}
