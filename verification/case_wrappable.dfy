/**
 * `CaseWrappable.next`: the case after `x` in declaration order (`allCases`),
 * wrapping from the last case back to the first. The lookup
 * `cases.firstIndex(of: self)!` is forced, so `x` must be one of the cases.
 */
module CaseWrappable {

  /** No case is listed twice (true of every `allCases` of an enumeration). */
  predicate Distinct<T(==)>(cases: seq<T>)
  {
    forall i, j :: 0 <= i < j < |cases| ==> cases[i] != cases[j]
  }

  /** `cases.firstIndex(of: x)`, forced. */
  function FirstIndexOf<T(==)>(cases: seq<T>, x: T): (i: nat)
    requires x in cases
    ensures i < |cases| && cases[i] == x
    ensures forall j :: 0 <= j < i ==> cases[j] != x
  {
    if cases[0] == x then 0 else 1 + FirstIndexOf(cases[1..], x)
  }

  /** `x.next`. */
  function Next<T(==)>(cases: seq<T>, x: T): (r: T)
    requires x in cases
    ensures r in cases
  {
    var i := FirstIndexOf(cases, x);
    if i == |cases| - 1 then cases[0] else cases[i + 1]
  }

  /** `next` applied `k` times. */
  function Iterate<T(==)>(cases: seq<T>, x: T, k: nat): (r: T)
    requires x in cases
    ensures r in cases
  {
    if k == 0 then x else Next(cases, Iterate(cases, x, k - 1))
  }

  lemma IndexOfDistinct<T>(cases: seq<T>, i: nat)
    requires Distinct(cases) && i < |cases|
    ensures FirstIndexOf(cases, cases[i]) == i
  {
  }

  /** The last case wraps around to the first. */
  lemma NextOfLast<T>(cases: seq<T>)
    requires Distinct(cases) && |cases| > 0
    ensures Next(cases, cases[|cases| - 1]) == cases[0]
  {
    IndexOfDistinct(cases, |cases| - 1);
  }

  /** Any other case moves to the case at the following index. */
  lemma NextOfOther<T>(cases: seq<T>, i: nat)
    requires Distinct(cases) && i + 1 < |cases|
    ensures Next(cases, cases[i]) == cases[i + 1]
  {
    IndexOfDistinct(cases, i);
  }

  /** `k` steps from the case at index `i` (at most one full turn) land at index `i + k`, wrapped once. */
  lemma {:induction false} IterateIndex<T>(cases: seq<T>, i: nat, k: nat)
    requires Distinct(cases) && i < |cases| && k <= |cases|
    ensures Iterate(cases, cases[i], k) == cases[if i + k >= |cases| then i + k - |cases| else i + k]
  {
    if k > 0 {
      IterateIndex(cases, i, k - 1);
      var j := if i + k - 1 >= |cases| then i + k - 1 - |cases| else i + k - 1;
      IndexOfDistinct(cases, j);
    }
  }

  /** Applying `next` as many times as there are cases returns to the start. */
  lemma FullCycle<T>(cases: seq<T>, x: T)
    requires Distinct(cases) && x in cases
    ensures Iterate(cases, x, |cases|) == x
  {
    var i := FirstIndexOf(cases, x);
    IterateIndex(cases, i, |cases|);
  }
}
