/**
 * `uniq_stable`: the distinct elements of a list, in the order in which they
 * first appear.
 */
module UniqStable {

  /** The specification: walk the input and keep an element the first time it is seen. */
  function Uniq<T(==)>(s: seq<T>): seq<T>
  {
    if s == [] then []
    else
      var u := Uniq(s[..|s| - 1]);
      if s[|s| - 1] in u then u else u + [s[|s| - 1]]
  }

  predicate NoDuplicates<T(==)>(s: seq<T>)
  {
    forall i, j :: 0 <= i < j < |s| ==> s[i] != s[j]
  }

  /** The index at which `x` first occurs in `s`. */
  function FirstIndex<T(==)>(s: seq<T>, x: T): (k: nat)
    requires x in s
    ensures k < |s| && s[k] == x
    ensures forall i :: 0 <= i < k ==> s[i] != x
  {
    if s[0] == x then 0 else 1 + FirstIndex(s[1..], x)
  }

  /** `uniq_stable`: the loop over `elems` with the list `unique` and the dictionary `unique_dict`. */
  method UniqStable<T(==)>(elems: seq<T>) returns (unique: seq<T>)
    ensures unique == Uniq(elems)
  {
    unique := [];
    var uniqueDict: set<T> := {};
    for i := 0 to |elems|
      invariant unique == Uniq(elems[..i])
      invariant forall x :: x in uniqueDict <==> x in unique
    {
      var nn := elems[i];
      assert elems[..i + 1][..i] == elems[..i];
      if nn !in uniqueDict {
        unique := unique + [nn];
        uniqueDict := uniqueDict + {nn};
      }
    }
    assert elems[..|elems|] == elems;
  }

  /** Every input element is kept and nothing else appears. */
  lemma {:induction false} UniqSameElements<T>(s: seq<T>)
    ensures forall x :: x in Uniq(s) <==> x in s
  {
    if s != [] {
      var init := s[..|s| - 1];
      UniqSameElements(init);
      assert s == init + [s[|s| - 1]];
    }
  }

  /** Each element is kept exactly once. */
  lemma {:induction false} UniqNoDuplicates<T>(s: seq<T>)
    ensures NoDuplicates(Uniq(s))
  {
    if s != [] {
      UniqNoDuplicates(s[..|s| - 1]);
    }
  }

  lemma {:induction false} FirstIndexExtend<T>(s: seq<T>, x: T, y: T)
    requires y in s
    ensures y in s + [x] && FirstIndex(s + [x], y) == FirstIndex(s, y)
  {
    if s[0] != y {
      assert (s + [x])[1..] == s[1..] + [x];
      FirstIndexExtend(s[1..], x, y);
    }
  }

  /** The kept elements come in the order of their first appearance in the input. */
  lemma {:induction false} UniqFirstAppearanceOrder<T>(s: seq<T>)
    ensures forall x :: x in Uniq(s) ==> x in s
    ensures forall i, j :: 0 <= i < j < |Uniq(s)| ==> FirstIndex(s, Uniq(s)[i]) < FirstIndex(s, Uniq(s)[j])
  {
    UniqSameElements(s);
    if s != [] {
      var init, x := s[..|s| - 1], s[|s| - 1];
      assert s == init + [x];
      var u := Uniq(init);
      UniqFirstAppearanceOrder(init);
      UniqSameElements(init);
      forall y | y in u
        ensures FirstIndex(s, y) == FirstIndex(init, y)
      {
        FirstIndexExtend(init, x, y);
      }
      if x !in u {
        assert Uniq(s) == u + [x];
        assert FirstIndex(s, x) == |init|;
        forall i, j | 0 <= i < j < |Uniq(s)|
          ensures FirstIndex(s, Uniq(s)[i]) < FirstIndex(s, Uniq(s)[j])
        {
          if j == |u| {
            assert Uniq(s)[i] == u[i];
          } else {
            assert Uniq(s)[i] == u[i] && Uniq(s)[j] == u[j];
          }
        }
      }
    }
  }
}
