/** Lists of addresses and identifiers, as the modules of this project use them. */
module Sequences {

  datatype Option<+T> = None | Some(value: T)

  /** `xs` without the element at position `k`. */
  function Without(xs: seq<nat>, k: nat): seq<nat>
    requires k < |xs|
  {
    xs[..k] + xs[k + 1..]
  }

  /** Where `x` first occurs in `xs`; the length of `xs` if it does not. */
  function Position(xs: seq<nat>, x: nat): (k: nat)
    ensures k <= |xs| && (k < |xs| <==> x in xs) && (k < |xs| ==> xs[k] == x)
  {
    if xs == [] || xs[0] == x then 0 else 1 + Position(xs[1..], x)
  }

  /** `xs` without the first occurrence of `x`. */
  function Remove(xs: seq<nat>, x: nat): seq<nat> {
    var k := Position(xs, x);
    if k < |xs| then Without(xs, k) else xs
  }

  ghost predicate NoDup(xs: seq<nat>) {
    forall i, j :: 0 <= i < j < |xs| ==> xs[i] != xs[j]
  }

  lemma TwiceInBag(xs: seq<nat>, i: nat, j: nat)
    requires i < j < |xs| && xs[i] == xs[j]
    ensures multiset(xs)[xs[i]] >= 2
  {
    assert xs == xs[..i] + [xs[i]] + xs[i + 1..j] + [xs[j]] + xs[j + 1..];
  }

  lemma {:induction false} NoDupCounts(xs: seq<nat>, x: nat)
    requires NoDup(xs)
    ensures multiset(xs)[x] <= 1
  {
    if xs != [] {
      NoDupCounts(xs[1..], x);
      assert xs == [xs[0]] + xs[1..];
      assert xs[0] in xs[1..] <==> multiset(xs[1..])[xs[0]] > 0;
    }
  }

  lemma RemoveFirst(x: nat, xs: seq<nat>)
    ensures Remove([x] + xs, x) == xs
  {
    assert Position([x] + xs, x) == 0;
  }

  lemma WithoutIs(xs: seq<nat>, k: nat)
    requires NoDup(xs) && k < |xs|
    ensures NoDup(Without(xs, k))
    ensures forall x :: x in Without(xs, k) <==> x in xs && x != xs[k]
  {
    forall x | x in xs && x != xs[k]
      ensures x in Without(xs, k)
    {
      var j :| 0 <= j < |xs| && xs[j] == x;
      assert Without(xs, k)[if j < k then j else j - 1] == x;
    }
  }
}
