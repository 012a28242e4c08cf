/** Optional values, as Python's `None`-or-value returns. */
module Wrappers {

  datatype Option<T> = None | Some(value: T) {
    function GetOr(default: T): (r: T)
      ensures this.Some? ==> r == value
      ensures this.None? ==> r == default
    {
      match this
      case None => default
      case Some(v) => v
    }
  }

  /** The values of the present entries, in order (`[x for x in xs if x is not None]`). */
  function Somes<T>(xs: seq<Option<T>>): (r: seq<T>)
    ensures |r| <= |xs|
    decreases |xs|
  {
    if |xs| == 0 then []
    else if xs[0].Some? then [xs[0].value] + Somes(xs[1..])
    else Somes(xs[1..])
  }

  /** Every kept value was present, and every present value is kept. */
  lemma {:induction false} SomesSpec<T>(xs: seq<Option<T>>)
    ensures forall k :: 0 <= k < |Somes(xs)| ==> Some(Somes(xs)[k]) in xs
    ensures forall i :: 0 <= i < |xs| && xs[i].Some? ==> xs[i].value in Somes(xs)
    decreases |xs|
  {
    if |xs| > 0 {
      SomesSpec(xs[1..]);
      assert forall i :: 1 <= i < |xs| ==> xs[i] == xs[1..][i - 1];
      assert forall x :: x in xs[1..] ==> x in xs;
    }
  }

  /** Nothing is kept exactly when every entry is absent. */
  lemma SomesEmpty<T>(xs: seq<Option<T>>)
    ensures |Somes(xs)| == 0 <==> forall i :: 0 <= i < |xs| ==> xs[i].None?
  {
    SomesSpec(xs);
    if |Somes(xs)| > 0 {
      assert Some(Somes(xs)[0]) in xs;
    }
  }

  /** The first position at or after `from` whose element satisfies `p`. */
  function FirstIndex<T>(xs: seq<T>, p: T -> bool, from: nat): (r: Option<nat>)
    requires from <= |xs|
    ensures r.Some? ==> from <= r.value < |xs| && p(xs[r.value])
    ensures r.Some? ==> forall j :: from <= j < r.value ==> !p(xs[j])
    ensures r.None? ==> forall j :: from <= j < |xs| ==> !p(xs[j])
    decreases |xs| - from
  {
    if from == |xs| then None
    else if p(xs[from]) then Some(from)
    else FirstIndex(xs, p, from + 1)
  }
}
