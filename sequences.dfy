/** Generic sequence operations that stand for JavaScript's array `filter`, `map`
    and the `push`-inside-`forEach` idiom the import code uses. */
module Sequences {

  /** The elements of `s` that satisfy `keep`, in their original order.
      Defined from the last element so that a loop pushing onto an array
      extends it one step at a time. */
  function Filter<T>(s: seq<T>, keep: T -> bool): (r: seq<T>)
    ensures |r| <= |s|
    ensures forall x :: x in r ==> x in s && keep(x)
  {
    if s == [] then []
    else
      var last := s[|s| - 1];
      Filter(s[..|s| - 1], keep) + (if keep(last) then [last] else [])
  }

  /** The positions of `s` whose element satisfies `keep`, increasing. */
  function KeptIndices<T>(s: seq<T>, keep: T -> bool): (ix: seq<nat>)
    ensures forall i, j :: 0 <= i < j < |ix| ==> ix[i] < ix[j]
    ensures forall k: nat :: k in ix <==> k < |s| && keep(s[k])
  {
    if s == [] then []
    else
      var n := |s| - 1;
      var prev := KeptIndices(s[..n], keep);
      assert forall k: nat :: k < n ==> s[..n][k] == s[k];
      assert forall i :: 0 <= i < |prev| ==> prev[i] in prev && prev[i] < n;
      prev + (if keep(s[n]) then [n] else [])
  }

  /** `Filter` selects exactly the elements at `KeptIndices`, one for one:
      together with the contract of `KeptIndices` this says the filtered
      sequence is the subsequence of the kept positions, in order. */
  lemma {:induction false} FilterSelects<T>(s: seq<T>, keep: T -> bool)
    ensures |Filter(s, keep)| == |KeptIndices(s, keep)|
    ensures forall i :: 0 <= i < |Filter(s, keep)| ==>
              KeptIndices(s, keep)[i] < |s| && Filter(s, keep)[i] == s[KeptIndices(s, keep)[i]]
  {
    if s != [] {
      var n := |s| - 1;
      FilterSelects(s[..n], keep);
      assert forall k: nat :: k < n ==> s[..n][k] == s[k];
    }
  }

  /** Filtering a sequence extended by one element. */
  lemma FilterSnoc<T>(s: seq<T>, x: T, keep: T -> bool)
    ensures Filter(s + [x], keep) == Filter(s, keep) + (if keep(x) then [x] else [])
  {
    assert (s + [x])[..|s|] == s;
  }

  lemma AppendAssoc<T>(a: seq<T>, b: seq<T>, c: seq<T>)
    ensures (a + b) + c == a + (b + c)
  {
  }

  /** `f` applied to every element, in order. */
  function Map<T, U>(s: seq<T>, f: T -> U): (r: seq<U>)
    ensures |r| == |s|
    ensures forall i :: 0 <= i < |s| ==> r[i] == f(s[i])
  {
    if s == [] then [] else Map(s[..|s| - 1], f) + [f(s[|s| - 1])]
  }
}
