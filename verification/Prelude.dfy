/** Option, and weighted totals over sequences: the bookkeeping device behind
    every conservation argument in this project. A law proved for an arbitrary
    weight `w` is a law about the multiset of elements: take for `w` the
    indicator of one element and it counts that element's occurrences. */
module Prelude {

  datatype Option<+T> = None | Some(value: T)

  /** The sum of the weights of the elements of `xs`. */
  ghost function Total<T>(xs: seq<T>, w: T -> nat): nat {
    if xs == [] then 0 else w(xs[0]) + Total(xs[1..], w)
  }

  lemma {:induction false} TotalConcat<T>(a: seq<T>, b: seq<T>, w: T -> nat)
    ensures Total(a + b, w) == Total(a, w) + Total(b, w)
  {
    if a == [] {
      assert a + b == b;
    } else {
      assert (a + b)[1..] == a[1..] + b;
      TotalConcat(a[1..], b, w);
    }
  }

  lemma TotalOne<T>(x: T, w: T -> nat)
    ensures Total([x], w) == w(x)
  {
    assert [x][1..] == [];
  }

  lemma TotalAppend<T>(a: seq<T>, x: T, w: T -> nat)
    ensures Total(a + [x], w) == Total(a, w) + w(x)
  {
    TotalConcat(a, [x], w);
    TotalOne(x, w);
  }

  lemma TotalBetween<T>(front: seq<T>, x: T, back: seq<T>, w: T -> nat)
    ensures Total(front + [x] + back, w) == Total(front + back, w) + w(x)
  {
    TotalConcat(front + [x], back, w);
    TotalAppend(front, x, w);
    TotalConcat(front, back, w);
  }

  lemma TotalInsert<T>(a: seq<T>, i: nat, x: T, w: T -> nat)
    requires i <= |a|
    ensures Total(a[..i] + [x] + a[i..], w) == Total(a, w) + w(x)
  {
    TotalBetween(a[..i], x, a[i..], w);
    assert a[..i] + a[i..] == a;
  }

  lemma TotalRemove<T>(a: seq<T>, i: nat, w: T -> nat)
    requires i < |a|
    ensures Total(a[..i] + a[i + 1..], w) + w(a[i]) == Total(a, w)
  {
    TotalBetween(a[..i], a[i], a[i + 1..], w);
    assert a[..i] + [a[i]] + a[i + 1..] == a;
  }

  lemma TotalUpdate<T>(a: seq<T>, i: nat, x: T, w: T -> nat)
    requires i < |a|
    ensures Total(a[i := x], w) + w(a[i]) == Total(a, w) + w(x)
  {
    TotalBetween(a[..i], x, a[i + 1..], w);
    assert a[..i] + [x] + a[i + 1..] == a[i := x];
    TotalRemove(a, i, w);
  }

  lemma {:induction false} TotalZero<T>(a: seq<T>, w: T -> nat)
    requires forall x :: x in a ==> w(x) == 0
    ensures Total(a, w) == 0
  {
    if a != [] {
      assert a[0] in a;
      TotalZero(a[1..], w);
    }
  }
}
