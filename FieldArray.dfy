/**
 * The two list edits react-hook-form's `useFieldArray` gives every editor:
 * `append(x)` adds at the end, `remove(i)` deletes the element at `i`
 * (an index outside the list removes nothing).
 */
module FieldArray {
  function RemoveAt<T>(xs: seq<T>, i: int): (r: seq<T>)
    ensures 0 <= i < |xs| ==> |r| == |xs| - 1
    ensures 0 <= i < |xs| ==> forall j :: 0 <= j < i ==> r[j] == xs[j]
    ensures 0 <= i < |xs| ==> forall j :: i <= j < |r| ==> r[j] == xs[j + 1]
    ensures 0 <= i < |xs| ==> multiset(r) + multiset{xs[i]} == multiset(xs)
    ensures !(0 <= i < |xs|) ==> r == xs
  {
    if 0 <= i < |xs| then
      assert xs == xs[..i] + [xs[i]] + xs[i + 1..];
      xs[..i] + xs[i + 1..]
    else xs
  }

  /** Removing the element just appended gives back the list before the append. */
  lemma RemoveAppended<T>(xs: seq<T>, x: T)
    ensures RemoveAt(xs + [x], |xs|) == xs
  {
    assert (xs + [x])[..|xs|] == xs;
  }

  /** Where the element at index j after removing index i stood before the removal. */
  function OldIndex(i: int, j: int): int {
    if j < i then j else j + 1
  }

  /**
   * Each survivor of a removal is the element from its own old position,
   * never the removed one, and survivors keep their relative order.
   */
  lemma RemoveKeepsOrder<T>(xs: seq<T>, i: int)
    requires 0 <= i < |xs|
    ensures forall j :: 0 <= j < |xs| - 1 ==>
              0 <= OldIndex(i, j) < |xs| && OldIndex(i, j) != i && RemoveAt(xs, i)[j] == xs[OldIndex(i, j)]
    ensures forall j, k :: 0 <= j < k < |xs| - 1 ==> OldIndex(i, j) < OldIndex(i, k)
  {
  }
}
