/** Sequences taken apart at either end, and sequences without repetition. */
module Sequences {

  ghost predicate Distinct<T(!new)>(s: seq<T>) {
    forall i, j :: 0 <= i < j < |s| ==> s[i] != s[j]
  }

  function Last<T>(s: seq<T>): T
    requires s != []
  {
    s[|s| - 1]
  }

  function Front<T>(s: seq<T>): seq<T>
    requires s != []
  {
    s[..|s| - 1]
  }

  lemma Unsnoc<T(!new)>(s: seq<T>)
    requires s != []
    ensures forall x :: x in s <==> x in Front(s) || x == Last(s)
    ensures Distinct(s) <==> Distinct(Front(s)) && Last(s) !in Front(s)
  {
    assert s == Front(s) + [Last(s)];
    if Distinct(Front(s)) && Last(s) !in Front(s) {
      forall i, j | 0 <= i < j < |s| ensures s[i] != s[j] {
        assert s[i] == Front(s)[i] && Front(s)[i] in Front(s);
      }
    }
  }

  lemma Uncons<T(!new)>(s: seq<T>)
    requires s != []
    ensures multiset(s) == multiset{s[0]} + multiset(s[1..])
    ensures forall x :: x in s <==> x == s[0] || x in s[1..]
    ensures Distinct(s) ==> Distinct(s[1..]) && s[0] !in s[1..]
  {
    assert s == [s[0]] + s[1..];
  }

  ghost function Elements(s: seq<nat>): set<nat> {
    set x: nat | x in s
  }

  lemma {:induction false} DistinctSize(s: seq<nat>)
    requires Distinct(s)
    ensures |Elements(s)| == |s|
  {
    if s == [] {
    } else {
      Unsnoc(s);
      DistinctSize(Front(s));
      assert Elements(s) == Elements(Front(s)) + {Last(s)};
    }
  }

  lemma {:induction false} SizeDistinct(s: seq<nat>)
    ensures |Elements(s)| <= |s|
    ensures |Elements(s)| == |s| ==> Distinct(s)
  {
    if s == [] {
    } else {
      Unsnoc(s);
      SizeDistinct(Front(s));
      assert Elements(s) == Elements(Front(s)) + {Last(s)};
    }
  }
}
