/** Sequences used as insertion-ordered sets (JavaScript's Set) and as the
    enumeration orders the browser picks for localStorage keys and
    Object.keys. */
module Sequences {

  predicate Distinct<T(==)>(xs: seq<T>) {
    forall i, j :: 0 <= i < j < |xs| ==> xs[i] != xs[j]
  }

  /** xs lists every element of s exactly once. */
  predicate IsEnumeration<T(==, !new)>(xs: seq<T>, s: set<T>) {
    Distinct(xs) && (forall x :: x in xs ==> x in s) && (forall x :: x in s ==> x in xs)
  }

  function Elements<T>(xs: seq<T>): set<T> {
    set x | x in xs
  }

  /** Set.prototype.add on a set kept in insertion order. */
  function SetAdd<T(==, !new)>(xs: seq<T>, x: T): (r: seq<T>)
    ensures Distinct(xs) ==> Distinct(r)
    ensures forall y :: y in r <==> y in xs || y == x
  {
    if x in xs then xs else xs + [x]
  }

  /** new Set(xs): the elements of xs, first occurrences only, in order. */
  function SetFromSeq<T(==, !new)>(xs: seq<T>): (r: seq<T>)
    ensures Distinct(r)
    ensures forall y :: y in r <==> y in xs
  {
    if xs == [] then []
    else SetAdd(SetFromSeq(xs[..|xs| - 1]), xs[|xs| - 1])
  }

  lemma EnumerationElements<T(!new)>(xs: seq<T>, s: set<T>)
    requires IsEnumeration(xs, s)
    ensures Elements(xs) == s
  {
  }

  lemma ConcatElements<T>(xs: seq<T>, ys: seq<T>)
    ensures Elements(xs + ys) == Elements(xs) + Elements(ys)
  {
  }

  lemma {:induction false} DistinctCardinality<T>(xs: seq<T>)
    requires Distinct(xs)
    ensures |Elements(xs)| == |xs|
  {
    if xs != [] {
      var init := xs[..|xs| - 1];
      var last := xs[|xs| - 1];
      assert Distinct(init);
      DistinctCardinality(init);
      assert last !in init;
      assert Elements(xs) == Elements(init) + {last};
    }
  }

  /** Lists a finite set in an order the environment chooses and this model
      does not know. */
  method Enumerate<T(==, !new)>(s: set<T>) returns (xs: seq<T>)
    ensures IsEnumeration(xs, s)
  {
    xs := [];
    var rest := s;
    while rest != {}
      invariant rest <= s
      invariant Distinct(xs)
      invariant forall x :: x in xs <==> x in s && x !in rest
      decreases rest
    {
      var x :| x in rest;
      xs := xs + [x];
      rest := rest - {x};
    }
  }
}
