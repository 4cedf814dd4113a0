/** Sequence idiom shared by the modules: peeling the last element, splitting at a member, sums. */
module Sequences {

  function Front<T>(s: seq<T>): seq<T>
    requires |s| > 0
  {
    s[..|s| - 1]
  }

  function Last<T>(s: seq<T>): T
    requires |s| > 0
  {
    s[|s| - 1]
  }

  lemma Snoc<T>(s: seq<T>, x: T)
    ensures Front(s + [x]) == s && Last(s + [x]) == x
  {
  }

  /** A list without repetition whose only member is x. */
  lemma OnlyElement<T>(s: seq<T>, x: T)
    requires x in s && forall i :: 0 <= i < |s| ==> s[i] == x
    requires forall i, j :: 0 <= i < j < |s| ==> s[i] != s[j]
    ensures s == [x]
  {
    var k :| 0 <= k < |s| && s[k] == x;
    OnlyIndex(s, x, k, 0);
    OnlyIndex(s, x, k, |s| - 1);
  }

  lemma OnlyIndex<T>(s: seq<T>, x: T, k: nat, m: nat)
    requires k < |s| && m < |s| && s[k] == x == s[m]
    requires forall i, j :: 0 <= i < j < |s| ==> s[i] != s[j]
    ensures k == m
  {
  }

  lemma SplitAt<T>(s: seq<T>, x: T) returns (before: seq<T>, after: seq<T>)
    requires x in s
    ensures s == before + [x] + after && multiset(before + after) == multiset(s) - multiset{x}
  {
    var k :| 0 <= k < |s| && s[k] == x;
    before, after := s[..k], s[k + 1..];
    assert s == before + [x] + after;
  }

  function Sum(s: seq<real>): real {
    if s == [] then 0.0 else Sum(Front(s)) + Last(s)
  }

  lemma {:induction false} SumConcat(a: seq<real>, b: seq<real>)
    ensures Sum(a + b) == Sum(a) + Sum(b)
  {
    if b == [] {
      assert a + b == a;
    } else {
      assert Front(a + b) == a + Front(b);
      SumConcat(a, Front(b));
    }
  }
}
