/** Sums of a weight over a sequence. */
module Totals {
  import opened Sorting

  function Total<T>(weight: T -> nat, xs: seq<T>): nat {
    if xs == [] then 0 else Total(weight, xs[..|xs| - 1]) + weight(xs[|xs| - 1])
  }

  function Without<T>(xs: seq<T>, at: nat): seq<T>
    requires at < |xs|
  {
    xs[..at] + xs[at + 1..]
  }

  lemma {:induction false} TotalConcat<T>(weight: T -> nat, xs: seq<T>, ys: seq<T>)
    ensures Total(weight, xs + ys) == Total(weight, xs) + Total(weight, ys)
  {
    if ys == [] {
      assert xs + ys == xs;
    } else {
      TotalConcat(weight, xs, ys[..|ys| - 1]);
      assert (xs + ys)[..|xs + ys| - 1] == xs + ys[..|ys| - 1];
    }
  }

  lemma TotalOne<T>(weight: T -> nat, x: T)
    ensures Total(weight, [x]) == weight(x)
  {
    assert [x][..0] == [];
  }

  lemma TotalHead<T>(weight: T -> nat, xs: seq<T>)
    requires xs != []
    ensures Total(weight, xs) == weight(xs[0]) + Total(weight, xs[1..])
  {
    assert xs == [xs[0]] + xs[1..];
    TotalConcat(weight, [xs[0]], xs[1..]);
    TotalOne(weight, xs[0]);
  }

  lemma {:induction false} TotalAfter<T>(weight: T -> nat, xs: seq<T>, at: nat, x: T)
    requires at < |xs|
    ensures Total(weight, xs[at := x]) + weight(xs[at]) == Total(weight, xs) + weight(x)
  {
    var n := |xs| - 1;
    if at == n {
      assert xs[at := x][..n] == xs[..n];
    } else {
      TotalAfter(weight, xs[..n], at, x);
      assert xs[at := x][..n] == xs[..n][at := x];
    }
  }

  lemma {:induction false} TotalWithout<T>(weight: T -> nat, xs: seq<T>, at: nat)
    requires at < |xs|
    ensures Total(weight, Without(xs, at)) + weight(xs[at]) == Total(weight, xs)
  {
    var n := |xs| - 1;
    if at == n {
      assert Without(xs, at) == xs[..n];
    } else {
      TotalWithout(weight, xs[..n], at);
      assert Without(xs, at)[..n - 1] == Without(xs[..n], at);
    }
  }

  lemma {:induction false} TotalAtLeast<T>(weight: T -> nat, xs: seq<T>, at: nat)
    requires at < |xs|
    ensures weight(xs[at]) <= Total(weight, xs)
  {
    TotalWithout(weight, xs, at);
  }

  lemma {:induction false} TotalInsert<T>(weight: T -> nat, before: (T, T) -> bool, xs: seq<T>, x: T)
    ensures Total(weight, Insert(before, xs, x)) == Total(weight, xs) + weight(x)
  {
    TotalOne(weight, x);
    if xs == [] {
    } else if before(x, xs[0]) {
      TotalConcat(weight, [x], xs);
    } else {
      TotalInsert(weight, before, xs[1..], x);
      TotalHead(weight, xs);
      TotalConcat(weight, [xs[0]], Insert(before, xs[1..], x));
      TotalOne(weight, xs[0]);
    }
  }

  lemma {:induction false} TotalSort<T>(weight: T -> nat, before: (T, T) -> bool, xs: seq<T>)
    ensures Total(weight, Sort(before, xs)) == Total(weight, xs)
  {
    if xs != [] {
      TotalSort(weight, before, xs[..|xs| - 1]);
      TotalInsert(weight, before, Sort(before, xs[..|xs| - 1]), xs[|xs| - 1]);
    }
  }
}
