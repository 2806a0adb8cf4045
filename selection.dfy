/**
 * Keeping the elements of a sequence that a predicate does not drop, in
 * order: the shape of a `for` loop that `continue`s past unwanted items and
 * appends the others. The lemmas hold for every predicate.
 */
module Selection {

  /** The elements of `xs` that `drop` rejects, in their original order. */
  function Keep<T>(xs: seq<T>, drop: T -> bool): (kept: seq<T>)
    ensures |kept| <= |xs|
  {
    if xs == [] then []
    else
      var last := xs[|xs| - 1];
      Keep(xs[..|xs| - 1], drop) + (if drop(last) then [] else [last])
  }

  /** Keeping from a longer sequence never takes back what a prefix kept. */
  lemma {:induction false} KeepPrefix<T>(xs: seq<T>, drop: T -> bool, n: nat)
    requires n <= |xs|
    ensures Keep(xs[..n], drop) <= Keep(xs, drop)
    decreases |xs|
  {
    if n < |xs| {
      var init := xs[..|xs| - 1];
      assert init[..n] == xs[..n];
      KeepPrefix(init, drop, n);
    } else {
      assert xs[..n] == xs;
    }
  }

  /** An element that is not dropped appears, unchanged, right after what its prefix kept. */
  lemma {:induction false} KeepPosition<T>(xs: seq<T>, drop: T -> bool, i: nat)
    requires i < |xs| && !drop(xs[i])
    ensures |Keep(xs[..i], drop)| < |Keep(xs, drop)|
    ensures Keep(xs, drop)[|Keep(xs[..i], drop)|] == xs[i]
  {
    assert xs[..i + 1][..i] == xs[..i];
    assert Keep(xs[..i + 1], drop) == Keep(xs[..i], drop) + [xs[i]];
    KeepPrefix(xs, drop, i + 1);
  }

  /** Of two kept elements, the earlier one comes first. */
  lemma {:induction false} KeepInOrder<T>(xs: seq<T>, drop: T -> bool, i: nat, j: nat)
    requires i < j <= |xs| && !drop(xs[i])
    ensures |Keep(xs[..i], drop)| < |Keep(xs[..j], drop)|
  {
    var prefix := xs[..j];
    assert prefix[..i] == xs[..i];
    KeepPosition(prefix, drop, i);
  }

  /** Whole elements are kept or dropped: the result holds exactly the elements `drop` rejects. */
  lemma {:induction false} KeepMembers<T>(xs: seq<T>, drop: T -> bool, x: T)
    ensures x in Keep(xs, drop) <==> x in xs && !drop(x)
    decreases |xs|
  {
    if xs != [] {
      var init := xs[..|xs| - 1];
      KeepMembers(init, drop, x);
      assert xs == init + [xs[|xs| - 1]];
    }
  }

  lemma {:induction false} KeepEmptyIff<T>(xs: seq<T>, drop: T -> bool)
    ensures Keep(xs, drop) == [] <==> forall i :: 0 <= i < |xs| ==> drop(xs[i])
  {
    var kept := Keep(xs, drop);
    if kept != [] {
      KeepMembers(xs, drop, kept[0]);
    }
    forall i | 0 <= i < |xs| && !drop(xs[i]) ensures kept != [] {
      KeepMembers(xs, drop, xs[i]);
    }
  }

  /** Keeping from a three-element sequence decides each element on its own. */
  lemma {:induction false} KeepThree<T>(a: T, b: T, c: T, drop: T -> bool)
    ensures Keep([a, b, c], drop) ==
      (if drop(a) then [] else [a]) + (if drop(b) then [] else [b]) + (if drop(c) then [] else [c])
  {
    var xs := [a, b, c];
    assert xs[..2] == [a, b];
    KeepTwo(a, b, drop);
  }

  /** Keeping from a two-element sequence decides each element on its own. */
  lemma {:induction false} KeepTwo<T>(a: T, b: T, drop: T -> bool)
    ensures Keep([a, b], drop) == (if drop(a) then [] else [a]) + (if drop(b) then [] else [b])
  {
    var xs := [a, b];
    assert xs[..1] == [a] && xs[..1][..0] == [];
  }
}
