/** Iteration over a HashSet or over the keys of a HashMap. Java leaves the
    order unspecified, so the model promises only that every element is
    visited exactly once. */
module Enumeration {

  /** No element occurs twice. */
  predicate Distinct(s: seq<int>) {
    forall i, j :: 0 <= i < j < |s| ==> s[i] != s[j]
  }

  /** `s` lists the elements of `xs`, each exactly once, in some order. */
  ghost predicate Enumerates(s: seq<int>, xs: set<int>) {
    Distinct(s) && forall x :: x in s <==> x in xs
  }

  /** Every entry of a listing is an element of the set. */
  lemma EnumeratesMember(s: seq<int>, xs: set<int>, i: int)
    requires Enumerates(s, xs) && 0 <= i < |s|
    ensures s[i] in xs
  {
    assert s[i] in s;
  }

  /** A listing without repetitions has as many entries as the set. */
  lemma {:induction false} EnumeratesCardinality(s: seq<int>, xs: set<int>)
    requires Enumerates(s, xs)
    ensures |s| == |xs|
  {
    if s == [] {
      assert forall x :: x !in xs;
      assert xs == {};
    } else {
      var rest := xs - {s[0]};
      assert s[0] in s;
      forall x
        ensures x in s[1..] <==> x in rest
      {
        if x in s[1..] {
          var k :| 0 <= k < |s[1..]| && s[1..][k] == x;
          assert s[k + 1] == x;
        }
        if x in rest {
          var k :| 0 <= k < |s| && s[k] == x;
          assert k != 0;
          assert s[1..][k - 1] == x;
        }
      }
      assert Distinct(s[1..]) by {
        forall i, j | 0 <= i < j < |s[1..]|
          ensures s[1..][i] != s[1..][j]
        {
          assert s[1..][i] == s[i + 1] && s[1..][j] == s[j + 1];
        }
      }
      EnumeratesCardinality(s[1..], rest);
    }
  }

  /** A non-empty set has an element. */
  lemma HasElement(xs: set<int>)
    requires xs != {}
    ensures exists x :: x in xs
  {
    if forall x :: x !in xs {
      assert false;
    }
  }

  /** One pass of a for-each loop over `xs`: the elements in the order the
      iteration happens to visit them. */
  method Enumerate(xs: set<int>) returns (s: seq<int>)
    ensures Enumerates(s, xs)
  {
    s := [];
    var rest := xs;
    while rest != {}
      invariant Distinct(s)
      invariant forall x :: x in s ==> x !in rest
      invariant forall x :: x in xs <==> x in s || x in rest
      decreases |rest|
    {
      HasElement(rest);
      var x :| x in rest;
      s := s + [x];
      rest := rest - {x};
    }
  }
}
