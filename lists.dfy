/** Sequence edits the handlers perform on id lists. */
module Lists {
  import opened Common

  /**
   * `xs.filter(y => y !== x)`: every occurrence of `x` dropped, the rest in order.
   */
  function Without(xs: seq<UserId>, x: UserId): (r: seq<UserId>)
    ensures x !in r
    ensures forall y :: y != x ==> multiset(r)[y] == multiset(xs)[y]
    ensures |r| <= |xs|
  {
    if xs == [] then []
    else
      assert xs == [xs[0]] + xs[1..];
      (if xs[0] == x then [] else [xs[0]]) + Without(xs[1..], x)
  }

  /** Filtering out an absent element changes nothing. */
  lemma {:induction false} WithoutAbsent(xs: seq<UserId>, x: UserId)
    requires x !in xs
    ensures Without(xs, x) == xs
  {
    if xs != [] {
      WithoutAbsent(xs[1..], x);
    }
  }

  /** Filtering distributes over concatenation, so the survivors keep their order. */
  lemma {:induction false} WithoutAppend(xs: seq<UserId>, ys: seq<UserId>, x: UserId)
    ensures Without(xs + ys, x) == Without(xs, x) + Without(ys, x)
  {
    if xs == [] {
      assert xs + ys == ys;
    } else {
      assert (xs + ys)[1..] == xs[1..] + ys;
      WithoutAppend(xs[1..], ys, x);
    }
  }

  /** Appending an absent element and then filtering it out restores the list. */
  lemma WithoutAppendedAbsent(xs: seq<UserId>, x: UserId)
    requires x !in xs
    ensures Without(xs + [x], x) == xs
  {
    WithoutAppend(xs, [x], x);
    WithoutAbsent(xs, x);
    assert Without([x], x) == [];
  }

  /** Filtering twice is filtering once. */
  lemma WithoutIdempotent(xs: seq<UserId>, x: UserId)
    ensures Without(Without(xs, x), x) == Without(xs, x)
  {
    WithoutAbsent(Without(xs, x), x);
  }
}
