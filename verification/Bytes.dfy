/** Byte strings, big-endian words, length-prefixed parts and lower-case hexadecimal.

    A Rust `String` is modelled by its bytes. The encoders are the ones the audit journal
    feeds to its hash; each comes with the lemma that it loses nothing. */
module Bytes {
  type byte = b: int | 0 <= b < 256

  type Text = seq<byte>

  const TWO64: nat := 0x1_0000_0000_0000_0000

  function ByteOf(c: char): byte {
    c as int % 256
  }

  /** An ASCII literal as bytes. */
  function Ascii(s: string): Text {
    seq(|s|, i requires 0 <= i < |s| => ByteOf(s[i]))
  }

  function Pow256(k: nat): (p: nat)
    ensures p >= 1
  {
    if k == 0 then 1 else 256 * Pow256(k - 1)
  }

  /** The low `width` bytes of `n`, most significant first. */
  function Be(n: nat, width: nat): (t: Text)
    ensures |t| == width
  {
    if width == 0 then [] else Be(n / 256, width - 1) + [n % 256]
  }

  lemma {:induction false} BeInjective(n: nat, m: nat, width: nat)
    requires n < Pow256(width) && m < Pow256(width)
    requires Be(n, width) == Be(m, width)
    ensures n == m
  {
    if width != 0 {
      var a, b := Be(n, width), Be(m, width);
      assert a[..width - 1] == Be(n / 256, width - 1);
      assert b[..width - 1] == Be(m / 256, width - 1);
      assert a[width - 1] == n % 256 && b[width - 1] == m % 256;
      BeInjective(n / 256, m / 256, width - 1);
    }
  }

  lemma Pow256Of8()
    ensures Pow256(8) == TWO64
  {
    assert Pow256(2) == 0x1_0000;
    assert Pow256(4) == 0x1_0000_0000;
    assert Pow256(6) == 0x1_0000_0000_0000;
  }

  function WordByte(v: int, i: nat): byte
    requires i < 8
  {
    Be(v % TWO64, 8)[i]
  }

  /** `to_be_bytes` of a 64-bit word: truncation for lengths, two's complement for i64. */
  function Word(v: int): (t: Text)
    ensures |t| == 8
  {
    seq(8, i requires 0 <= i < 8 => WordByte(v, i))
  }

  lemma WordInjective(v: int, w: int)
    requires Word(v) == Word(w)
    ensures v % TWO64 == w % TWO64
  {
    Pow256Of8();
    var a, b := Be(v % TWO64, 8), Be(w % TWO64, 8);
    forall i | 0 <= i < 8 ensures a[i] == b[i] {
      assert Word(v)[i] == WordByte(v, i) && Word(w)[i] == WordByte(w, i);
    }
    BeInjective(v % TWO64, w % TWO64, 8);
  }

  /** One hashed field: its length as a 64-bit word, then its bytes. */
  function Part(bytes: Text): Text {
    Word(|bytes|) + bytes
  }

  function Parts(fields: seq<Text>): Text {
    if fields == [] then [] else Part(fields[0]) + Parts(fields[1..])
  }

  lemma PrefixCancels(u: Text, x: Text, v: Text, y: Text)
    requires |u| == |v| && u + x == v + y
    ensures u == v && x == y
  {
    assert (u + x)[..|u|] == u && (v + y)[..|u|] == v;
    assert (u + x)[|u|..] == x && (v + y)[|u|..] == y;
  }

  lemma PartCancels(a: Text, x: Text, b: Text, y: Text)
    requires |a| < TWO64 && |b| < TWO64
    requires Part(a) + x == Part(b) + y
    ensures a == b && x == y
  {
    var u, v := Word(|a|), Word(|b|);
    assert u + a + x == u + (a + x) && v + b + y == v + (b + y);
    PrefixCancels(u, a + x, v, b + y);
    WordInjective(|a|, |b|);
    PrefixCancels(a, x, b, y);
  }

  /** The field framing is injective for equally many fields. */
  lemma {:induction false} PartsInjective(f: seq<Text>, g: seq<Text>)
    requires |f| == |g|
    requires forall t | t in f :: |t| < TWO64
    requires forall t | t in g :: |t| < TWO64
    requires Parts(f) == Parts(g)
    ensures f == g
  {
    if f != [] {
      PartCancels(f[0], Parts(f[1..]), g[0], Parts(g[1..]));
      PartsInjective(f[1..], g[1..]);
      assert f == [f[0]] + f[1..] && g == [g[0]] + g[1..];
    }
  }

  function HexDigit(n: nat): (b: byte)
    requires n < 16
  {
    if n < 10 then 48 + n else 87 + n
  }

  function Hex(bytes: Text): (t: Text)
    ensures |t| == 2 * |bytes|
  {
    if bytes == [] then [] else [HexDigit(bytes[0] / 16), HexDigit(bytes[0] % 16)] + Hex(bytes[1..])
  }

  lemma {:induction false} HexInjective(a: Text, b: Text)
    requires Hex(a) == Hex(b)
    ensures a == b
  {
    assert |a| == |b|;
    if a != [] {
      var x, y := Hex(a), Hex(b);
      assert x[0] == HexDigit(a[0] / 16) && x[1] == HexDigit(a[0] % 16) && x[2..] == Hex(a[1..]);
      assert y[0] == HexDigit(b[0] / 16) && y[1] == HexDigit(b[0] % 16) && y[2..] == Hex(b[1..]);
      HexInjective(a[1..], b[1..]);
      assert a == [a[0]] + a[1..] && b == [b[0]] + b[1..];
    }
  }

  // ---- Order ----

  /** Byte-wise lexicographic order, the order of Rust strings. */
  predicate Less(a: Text, b: Text) {
    b != [] && (a == [] || a[0] < b[0] || (a[0] == b[0] && Less(a[1..], b[1..])))
  }

  lemma {:induction false} LessTotal(a: Text, b: Text)
    ensures !(Less(a, b) && Less(b, a))
    ensures Less(a, b) || Less(b, a) || a == b
    ensures !Less(a, a)
  {
    if a != [] && b != [] {
      LessTotal(a[1..], b[1..]);
      assert a == [a[0]] + a[1..] && b == [b[0]] + b[1..];
    } else if a != [] {
      LessTotal(a[1..], a[1..]);
    }
  }

  lemma {:induction false} LessTransitive(a: Text, b: Text, c: Text)
    requires Less(a, b) && Less(b, c)
    ensures Less(a, c)
  {
    if a != [] && a[0] == b[0] == c[0] {
      LessTransitive(a[1..], b[1..], c[1..]);
    }
  }

  ghost predicate Ascends(ids: seq<Text>) {
    forall j, k {:trigger Less(ids[j], ids[k])} | 0 <= j < k < |ids| :: Less(ids[j], ids[k])
  }

  /** The least of some identifiers. */
  method Least(ids: set<Text>) returns (least: Text)
    requires ids != {}
    ensures least in ids && forall i | i in ids :: i == least || Less(least, i)
  {
    least :| least in ids;
    var rest := ids - {least};
    while rest != {}
      invariant rest <= ids && least in ids
      invariant forall i | i in ids - rest :: i == least || Less(least, i)
      decreases |rest|
    {
      var i :| i in rest;
      LessTotal(i, least);
      if Less(i, least) {
        forall j | j in ids - rest ensures Less(i, j) {
          if j != least {
            LessTransitive(i, least, j);
          }
        }
        least := i;
      }
      rest := rest - {i};
    }
  }

  /** `list` holds exactly `ids`, each once, in order. */
  ghost predicate Lists(list: seq<Text>, ids: set<Text>) {
    Ascends(list) && forall i :: i in list <==> i in ids
  }

  /** The keys of an ordered map, in the order it is walked. */
  method InOrder(ids: set<Text>) returns (list: seq<Text>)
    ensures Lists(list, ids)
  {
    list := [];
    var rest := ids;
    while rest != {}
      invariant rest <= ids && Ascends(list)
      invariant forall i :: i in list <==> i in ids && i !in rest
      invariant forall i, j | i in list && j in rest :: Less(i, j)
      decreases |rest|
    {
      var next := Least(rest);
      rest := rest - {next};
      list := list + [next];
    }
  }

  lemma AscendsOnce(ids: seq<Text>, j: nat, k: nat)
    requires Ascends(ids) && j < k < |ids|
    ensures ids[j] != ids[k]
  {
    LessTotal(ids[j], ids[k]);
  }
}
