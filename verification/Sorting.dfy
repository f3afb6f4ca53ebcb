/** Stable insertion sort by a "comes strictly before" relation, and text order. */
module Sorting {
  datatype Ordering = Less | Equal | Greater

  function Flip(o: Ordering): Ordering {
    match o case Less => Greater case Equal => Equal case Greater => Less
  }

  function Then(first: Ordering, second: Ordering): Ordering {
    if first.Equal? then second else first
  }

  function CompareNat(a: int, b: int): Ordering {
    if a < b then Less else if a == b then Equal else Greater
  }

  /** Byte-wise lexicographic comparison, the order of Rust strings. */
  function CompareText(a: string, b: string): Ordering {
    if a == "" && b == "" then Equal
    else if a == "" then Less
    else if b == "" then Greater
    else Then(CompareNat(a[0] as int, b[0] as int), CompareText(a[1..], b[1..]))
  }

  lemma {:induction false} CompareTextFlips(a: string, b: string)
    ensures CompareText(b, a) == Flip(CompareText(a, b))
    ensures CompareText(a, b).Equal? <==> a == b
  {
    if a != "" && b != "" {
      CompareTextFlips(a[1..], b[1..]);
      assert a == [a[0]] + a[1..] && b == [b[0]] + b[1..];
    }
  }

  lemma {:induction false} CompareTextTransitive(a: string, b: string, c: string)
    requires CompareText(a, b).Less? && CompareText(b, c).Less?
    ensures CompareText(a, c).Less?
  {
    if a != "" && a[0] == b[0] == c[0] {
      CompareTextTransitive(a[1..], b[1..], c[1..]);
    }
  }

  /** `before` is a strict weak order: what a comparison sort needs of its comparator. */
  ghost predicate StrictWeakOrder<T(!new)>(before: (T, T) -> bool) {
    && (forall x :: !before(x, x))
    && (forall x, y, z :: before(x, y) && before(y, z) ==> before(x, z))
    && (forall x, y, z :: before(x, y) ==> before(x, z) || before(z, y))
  }

  ghost predicate Sorted<T>(before: (T, T) -> bool, s: seq<T>) {
    forall i, j | 0 <= i < j < |s| :: !before(s[j], s[i])
  }

  /** Inserts after everything it does not come strictly before. */
  function Insert<T>(before: (T, T) -> bool, s: seq<T>, x: T): seq<T> {
    if s == [] then [x]
    else if before(x, s[0]) then [x] + s
    else [s[0]] + Insert(before, s[1..], x)
  }

  /** The stable sort of `s`. */
  function Sort<T>(before: (T, T) -> bool, s: seq<T>): seq<T> {
    if s == [] then [] else Insert(before, Sort(before, s[..|s| - 1]), s[|s| - 1])
  }

  lemma {:induction false} InsertAdds<T>(before: (T, T) -> bool, s: seq<T>, x: T)
    ensures multiset(Insert(before, s, x)) == multiset(s) + multiset{x}
  {
    if s != [] && !before(x, s[0]) {
      InsertAdds(before, s[1..], x);
      assert s == [s[0]] + s[1..];
      assert multiset(s) == multiset{s[0]} + multiset(s[1..]);
      assert Insert(before, s, x) == [s[0]] + Insert(before, s[1..], x);
    }
  }

  lemma {:induction false} InsertMembers<T>(before: (T, T) -> bool, s: seq<T>, x: T, y: T)
    requires y in Insert(before, s, x)
    ensures y == x || y in s
  {
    if s != [] && !before(x, s[0]) && y in Insert(before, s[1..], x) {
      InsertMembers(before, s[1..], x, y);
    }
  }

  lemma SortedCons<T>(before: (T, T) -> bool, head: T, rest: seq<T>)
    requires Sorted(before, rest) && forall y | y in rest :: !before(y, head)
    ensures Sorted(before, [head] + rest)
  {
    var all := [head] + rest;
    forall i, j | 0 <= i < j < |all| ensures !before(all[j], all[i]) {
      assert all[j] == rest[j - 1];
    }
  }

  lemma {:induction false} InsertKeeps<T(!new)>(before: (T, T) -> bool, s: seq<T>, x: T)
    requires StrictWeakOrder(before) && Sorted(before, s)
    ensures Sorted(before, Insert(before, s, x))
    ensures multiset(Insert(before, s, x)) == multiset(s) + multiset{x}
  {
    InsertAdds(before, s, x);
    if s == [] {
    } else if before(x, s[0]) {
      forall y | y in s ensures !before(y, x) {
        var j :| 0 <= j < |s| && s[j] == y;
        assert j > 0 ==> !before(s[j], s[0]);
      }
      SortedCons(before, x, s);
    } else {
      InsertKeeps(before, s[1..], x);
      forall y | y in Insert(before, s[1..], x) ensures !before(y, s[0]) {
        InsertMembers(before, s[1..], x, y);
        if y in s[1..] {
          var j :| 0 <= j < |s| - 1 && s[1..][j] == y;
          assert !before(s[j + 1], s[0]);
        }
      }
      SortedCons(before, s[0], Insert(before, s[1..], x));
    }
  }

  lemma {:induction false} SortSorts<T(!new)>(before: (T, T) -> bool, s: seq<T>)
    requires StrictWeakOrder(before)
    ensures Sorted(before, Sort(before, s))
    ensures multiset(Sort(before, s)) == multiset(s)
    ensures |Sort(before, s)| == |s|
  {
    if s != [] {
      var n := |s| - 1;
      SortSorts(before, s[..n]);
      InsertKeeps(before, Sort(before, s[..n]), s[n]);
      assert s == s[..n] + [s[n]];
    }
    assert |multiset(Sort(before, s))| == |multiset(s)|;
  }
}
