/** Small facts about sequences used by the iteration orders in the services. */
module Sequences {

  /** No element occurs twice. */
  predicate Distinct<T(==)>(s: seq<T>) {
    forall i, j :: 0 <= i < j < |s| ==> s[i] != s[j]
  }

  /** Appending an element not yet present keeps a sequence free of repeats. */
  lemma DistinctAppend<T>(s: seq<T>, x: T)
    requires Distinct(s) && x !in s
    ensures Distinct(s + [x])
  {
  }

  /**
   * An iteration order for a finite set: every element exactly once, in an order the
   * caller may not rely on (the order in which a hash map hands out its keys).
   */
  method Enumerate<T>(s: set<T>) returns (xs: seq<T>)
    ensures Distinct(xs)
    ensures forall x :: x in xs <==> x in s
  {
    var rest := s;
    xs := [];
    while rest != {}
      invariant Distinct(xs)
      invariant forall x :: x in xs <==> x in s && x !in rest
      invariant rest <= s
      decreases rest
    {
      var x :| x in rest;
      DistinctAppend(xs, x);
      xs := xs + [x];
      rest := rest - {x};
    }
  }

  /** A prefix of a sequence without repeats has none either. */
  lemma DistinctPrefix<T>(s: seq<T>, n: nat)
    requires Distinct(s) && n <= |s|
    ensures Distinct(s[..n])
  {
  }

  /**
   * A non-empty sequence has a first element. Calling this supplies the term `s[0]`
   * without checking an index, which matters where the facts in scope already rule
   * out a non-empty `s`: an inline `s[0]` there is an index check drawn from
   * contradictory assumptions.
   */
  lemma HasFirst<T>(s: seq<T>)
    ensures s == [] || s[0] in s
  {
  }

  function Last<T>(s: seq<T>): T
    requires s != []
  {
    s[|s| - 1]
  }
}
