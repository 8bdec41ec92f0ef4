/** Small helpers shared by the other modules. */
module Collections {
  datatype Option<+T> = None | Some(value: T)

  /** `xs` without position `k`. */
  function RemoveAt<T>(xs: seq<T>, k: nat): seq<T>
    requires k < |xs|
  {
    xs[..k] + xs[k + 1..]
  }

  lemma RemoveAtShifts<T>(xs: seq<T>, i: nat, j: nat)
    requires i < |xs| && j < |xs| && i != j
    ensures var k := if j > i then j - 1 else j;
            |RemoveAt(xs, i)| == |xs| - 1 && RemoveAt(xs, i)[k] == xs[j]
  {
  }

  lemma RemoveAtCounts<T>(xs: seq<T>, k: nat)
    requires k < |xs|
    ensures multiset(xs) == multiset(RemoveAt(xs, k)) + multiset{xs[k]}
    ensures multiset(xs) - multiset{xs[k]} == multiset(RemoveAt(xs, k))
  {
    assert xs == xs[..k] + [xs[k]] + xs[k + 1..];
  }

  /** The naturals below `n`. */
  function Range(n: nat): (s: set<nat>)
    ensures |s| == n
    ensures forall x: nat :: x in s <==> x < n
  {
    if n == 0 then {} else Range(n - 1) + {n - 1}
  }
}
