/** Grouping items under ordered numeric keys: the entries of a `BTreeMap<key, Vec<item>>` built
    by pushing items one at a time. */
module Buckets {
  datatype Bucket = Bucket(key: nat, items: seq<nat>)

  function Push(buckets: seq<Bucket>, key: nat, item: nat): seq<Bucket> {
    if buckets == [] || key < buckets[0].key then [Bucket(key, [item])] + buckets
    else if buckets[0].key == key then [Bucket(key, buckets[0].items + [item])] + buckets[1..]
    else [buckets[0]] + Push(buckets[1..], key, item)
  }

  /** All of `items`, pushed in order under `keyOf`. */
  function Grouped(items: seq<nat>, keyOf: nat -> nat): seq<Bucket> {
    if items == [] then []
    else Push(Grouped(items[..|items| - 1], keyOf), keyOf(items[|items| - 1]), items[|items| - 1])
  }

  /** The items under one key. */
  function Lookup(buckets: seq<Bucket>, key: nat): seq<nat> {
    if buckets == [] then []
    else if buckets[0].key == key then buckets[0].items
    else Lookup(buckets[1..], key)
  }

  /** The items with one key, in order. */
  function Matching(items: seq<nat>, keyOf: nat -> nat, key: nat): seq<nat> {
    if items == [] then []
    else
      var n := |items| - 1;
      Matching(items[..n], keyOf, key) + if keyOf(items[n]) == key then [items[n]] else []
  }

  predicate Above(low: int, buckets: seq<Bucket>) {
    forall b {:trigger b in buckets} | b in buckets :: low < b.key
  }

  /** Keys strictly ascend and no bucket is empty. */
  predicate WellFormed(buckets: seq<Bucket>) {
    buckets == [] || (buckets[0].items != [] && Above(buckets[0].key, buckets[1..]) && WellFormed(buckets[1..]))
  }

  lemma {:induction false} AboveMisses(buckets: seq<Bucket>, key: nat)
    requires Above(key, buckets)
    ensures Lookup(buckets, key) == []
  {
    if buckets != [] {
      assert buckets[0] in buckets && forall b | b in buckets[1..] :: b in buckets;
      AboveMisses(buckets[1..], key);
    }
  }

  lemma {:induction false} PushMembers(buckets: seq<Bucket>, key: nat, item: nat, b: Bucket)
    requires b in Push(buckets, key, item)
    ensures b.key == key || b in buckets
  {
    if buckets != [] && b in Push(buckets[1..], key, item) {
      PushMembers(buckets[1..], key, item, b);
    }
  }

  lemma {:induction false} PushAppends(buckets: seq<Bucket>, key: nat, item: nat, k: nat)
    requires WellFormed(buckets)
    ensures WellFormed(Push(buckets, key, item))
    ensures Lookup(Push(buckets, key, item), k) == Lookup(buckets, k) + if k == key then [item] else []
  {
    var after := Push(buckets, key, item);
    assert Lookup(buckets, k) + [] == Lookup(buckets, k);
    if buckets == [] {
    } else if key < buckets[0].key {
      assert after[1..] == buckets;
      assert Above(key, buckets) by {
        assert buckets == [buckets[0]] + buckets[1..];
      }
      AboveMisses(buckets, key);
    } else if buckets[0].key == key {
      assert after[1..] == buckets[1..];
    } else {
      PushAppends(buckets[1..], key, item, k);
      assert after[1..] == Push(buckets[1..], key, item);
      forall b | b in after[1..] ensures buckets[0].key < b.key {
        PushMembers(buckets[1..], key, item, b);
      }
    }
  }

  /** Each bucket holds exactly the items with its key, in order. */
  lemma {:induction false} GroupedExact(items: seq<nat>, keyOf: nat -> nat, key: nat)
    ensures WellFormed(Grouped(items, keyOf))
    ensures Lookup(Grouped(items, keyOf), key) == Matching(items, keyOf, key)
  {
    if items != [] {
      var n := |items| - 1;
      GroupedExact(items[..n], keyOf, key);
      PushAppends(Grouped(items[..n], keyOf), keyOf(items[n]), items[n], key);
    }
  }

  // ---- Buckets with at least two items ----

  function Large(buckets: seq<Bucket>): seq<Bucket> {
    if buckets == [] then []
    else
      var n := |buckets| - 1;
      Large(buckets[..n]) + if |buckets[n].items| > 1 then [buckets[n]] else []
  }

  lemma {:induction false} LargeHead(buckets: seq<Bucket>)
    requires buckets != []
    ensures Large(buckets) == (if |buckets[0].items| > 1 then [buckets[0]] else []) + Large(buckets[1..])
  {
    var n := |buckets| - 1;
    if n == 0 {
      assert buckets[..0] == [] && buckets[1..] == [];
    } else {
      LargeHead(buckets[..n]);
      var rest := buckets[1..];
      assert buckets[..n][1..] == rest[..n - 1] && rest[n - 1] == buckets[n];
      var head := if |buckets[0].items| > 1 then [buckets[0]] else [];
      var last := if |buckets[n].items| > 1 then [buckets[n]] else [];
      assert Large(rest) == Large(rest[..n - 1]) + last;
      assert (head + Large(rest[..n - 1])) + last == head + (Large(rest[..n - 1]) + last);
    }
  }

  lemma {:induction false} LargeWithin(buckets: seq<Bucket>, b: Bucket)
    ensures b in Large(buckets) <==> b in buckets && |b.items| > 1
  {
    if buckets != [] {
      LargeHead(buckets);
      LargeWithin(buckets[1..], b);
      assert buckets == [buckets[0]] + buckets[1..];
    }
  }

  lemma {:induction false} LargeExact(buckets: seq<Bucket>, key: nat)
    requires WellFormed(buckets)
    ensures WellFormed(Large(buckets))
    ensures Lookup(Large(buckets), key) == if |Lookup(buckets, key)| > 1 then Lookup(buckets, key) else []
  {
    if buckets != [] {
      LargeHead(buckets);
      LargeExact(buckets[1..], key);
      forall b | b in Large(buckets[1..]) ensures buckets[0].key < b.key {
        LargeWithin(buckets[1..], b);
      }
      if key == buckets[0].key {
        AboveMisses(buckets[1..], key);
      }
      var rest := Large(buckets[1..]);
      if |buckets[0].items| > 1 {
        assert ([buckets[0]] + rest)[1..] == rest;
      } else {
        assert [] + rest == rest;
      }
    }
  }

  lemma NeverEmpty(a: seq<Bucket>)
    requires WellFormed(a) && a != []
    ensures exists key: nat :: Lookup(a, key) != Lookup([], key)
  {
    assert Lookup(a, a[0].key) == a[0].items;
  }

  /** Well-formed buckets are determined by what each key looks up. */
  lemma {:induction false} SameLookups(a: seq<Bucket>, b: seq<Bucket>)
    requires WellFormed(a) && WellFormed(b)
    requires forall key: nat :: Lookup(a, key) == Lookup(b, key)
    ensures a == b
  {
    if a == [] {
      if b != [] {
        assert Lookup(a, b[0].key) == Lookup(b, b[0].key);
        assert false;
      }
    } else if b == [] {
      NeverEmpty(a);
      assert false;
    } else {
      FirstKeyLow(a, b);
      FirstKeyLow(b, a);
      forall key: nat ensures Lookup(a[1..], key) == Lookup(b[1..], key) {
        assert Lookup(a, key) == Lookup(b, key);
        if key == a[0].key {
          AboveMisses(a[1..], key);
          AboveMisses(b[1..], key);
        }
      }
      SameLookups(a[1..], b[1..]);
      assert a == [a[0]] + a[1..] && b == [b[0]] + b[1..];
    }
  }

  lemma FirstKeyLow(a: seq<Bucket>, b: seq<Bucket>)
    requires WellFormed(a) && WellFormed(b) && a != [] && b != []
    requires Lookup(a, b[0].key) == Lookup(b, b[0].key)
    ensures a[0].key <= b[0].key
  {
    if b[0].key < a[0].key {
      assert Above(b[0].key, a) by {
        assert a == [a[0]] + a[1..];
      }
      AboveMisses(a, b[0].key);
      assert false;
    }
  }
}
