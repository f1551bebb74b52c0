/** Order-preserving selection from a sequence (Kotlin's `filter`). */
module Sequences {

  /** The elements of `xs` that satisfy `keep`, in their original order. */
  function Filter<X>(xs: seq<X>, keep: X -> bool): (ys: seq<X>)
    ensures |ys| <= |xs|
    ensures forall i :: 0 <= i < |ys| ==> keep(ys[i])
    decreases |xs|
  {
    if xs == [] then []
    else (if keep(xs[0]) then [xs[0]] else []) + Filter(xs[1..], keep)
  }

  /** The survivors are exactly the elements of `xs` that satisfy `keep`. */
  lemma {:induction false} FilterMembers<X>(xs: seq<X>, keep: X -> bool)
    ensures forall y :: y in Filter(xs, keep) ==> y in xs && keep(y)
    ensures forall i :: 0 <= i < |xs| && keep(xs[i]) ==> xs[i] in Filter(xs, keep)
    decreases |xs|
  {
    if xs != [] {
      FilterMembers(xs[1..], keep);
      forall i | 0 <= i < |xs| && keep(xs[i]) ensures xs[i] in Filter(xs, keep) {
        if i > 0 {
          assert xs[i] == xs[1..][i - 1];
        }
      }
    }
  }

  /** Filtering distributes over concatenation, so survivors keep their relative order. */
  lemma {:induction false} FilterAppend<X>(a: seq<X>, b: seq<X>, keep: X -> bool)
    ensures Filter(a + b, keep) == Filter(a, keep) + Filter(b, keep)
    decreases |a|
  {
    if a == [] {
      assert a + b == b;
    } else {
      assert (a + b)[1..] == a[1..] + b;
      FilterAppend(a[1..], b, keep);
    }
  }

  /** Filtering splits around any position: the part before it, the element itself, and the part after. */
  lemma {:induction false} FilterSplitAt<X>(xs: seq<X>, i: nat, keep: X -> bool)
    requires i < |xs|
    ensures Filter(xs, keep) == Filter(xs[..i], keep) + Filter([xs[i]], keep) + Filter(xs[i + 1..], keep)
    decreases i
  {
    var head := if keep(xs[0]) then [xs[0]] else [];
    assert Filter(xs, keep) == head + Filter(xs[1..], keep);
    if i == 0 {
      assert [xs[0]][1..] == [];
      assert Filter([xs[0]], keep) == head + Filter([], keep);
      assert xs[1..] == xs[i + 1..];
    } else {
      FilterSplitAt(xs[1..], i - 1, keep);
      assert xs[1..][i - 1] == xs[i];
      assert xs[1..][i..] == xs[i + 1..];
      assert xs[..i][0] == xs[0] && xs[..i][1..] == xs[1..][..i - 1];
      assert Filter(xs[..i], keep) == head + Filter(xs[1..][..i - 1], keep);
    }
  }

  /** Everything is dropped when no element is kept. */
  lemma {:induction false} FilterDropsAll<X>(xs: seq<X>, keep: X -> bool)
    requires forall i :: 0 <= i < |xs| ==> !keep(xs[i])
    ensures Filter(xs, keep) == []
    decreases |xs|
  {
    if xs != [] {
      FilterDropsAll(xs[1..], keep);
    }
  }

  /** Two predicates that agree on every element select the same elements. */
  lemma {:induction false} FilterCongruent<X>(xs: seq<X>, p: X -> bool, q: X -> bool)
    requires forall i :: 0 <= i < |xs| ==> p(xs[i]) == q(xs[i])
    ensures Filter(xs, p) == Filter(xs, q)
    decreases |xs|
  {
    if xs != [] {
      FilterCongruent(xs[1..], p, q);
    }
  }
}
