/** The private file-name tokens SQLite is given: `/<key>/<fixed name>`, and their parser. */
module VfsNames {
  import opened Wrappers
  import opened Bytes

  datatype Name = Database | Wal | Rollback | Shm

  const SLASH: byte := 47
  const ZERO: byte := 48
  const NINE: byte := 57

  function NameText(name: Name): Text {
    match name
    case Database => Ascii("state.db")
    case Wal => Ascii("state.db-wal")
    case Rollback => Ascii("state.db-journal")
    case Shm => Ascii("state.db-shm")
  }

  /** A key in decimal, as the token is formatted. */
  function Decimal(n: nat): (t: Text)
    ensures t != []
  {
    if n < 10 then [ZERO + n] else Decimal(n / 10) + [ZERO + n % 10]
  }

  /** The token for one file of one namespace. */
  function Print(key: nat, name: Name): Text {
    [SLASH] + Decimal(key) + [SLASH] + NameText(name)
  }

  // ---- Parsing ----

  /** The first slash. */
  function Slash(t: Text): (at: Option<nat>)
    ensures at.Some? ==> at.value < |t| && t[at.value] == SLASH && forall i | 0 <= i < at.value :: t[i] != SLASH
    ensures at.None? ==> SLASH !in t
  {
    if t == [] then None
    else if t[0] == SLASH then Some(0)
    else match Slash(t[1..])
      case Some(at) => Some(at + 1)
      case None => None
  }

  predicate Digit(b: byte) {
    ZERO <= b <= NINE
  }

  /** Checked accumulation in 64 bits, most significant digit first. */
  function Accumulate(digits: Text): Option<nat> {
    if digits == [] then Some(0)
    else
      var n := |digits| - 1;
      match Accumulate(digits[..n])
      case None => None
      case Some(high) =>
        if !Digit(digits[n]) || high * 10 >= TWO64 || high * 10 + (digits[n] - ZERO) >= TWO64 then None
        else Some(high * 10 + (digits[n] - ZERO))
  }

  function NameOf(t: Text): Option<Name> {
    if t == NameText(Database) then Some(Database)
    else if t == NameText(Wal) then Some(Wal)
    else if t == NameText(Rollback) then Some(Rollback)
    else if t == NameText(Shm) then Some(Shm)
    else None
  }

  /** The key's digits and the file name, once split. */
  function ParseParts(digits: Text, rest: Text): Option<(nat, Name)> {
    if digits == [] || |digits| > 20 || digits[0] == ZERO then None
    else match Accumulate(digits)
      case None => None
      case Some(key) => match NameOf(rest)
        case None => None
        case Some(name) => Some((key, name))
  }

  function Parse(t: Text): Option<(nat, Name)> {
    if t == [] || t[0] != SLASH then None
    else
      var input := t[1..];
      match Slash(input)
      case None => None
      case Some(split) => ParseParts(input[..split], input[split + 1..])
  }

  // ---- Parsing inverts printing, and accepts nothing else ----

  function Pow10(n: nat): nat {
    if n == 0 then 1 else 10 * Pow10(n - 1)
  }

  predicate AllDigits(t: Text) {
    forall i | 0 <= i < |t| :: Digit(t[i])
  }

  lemma {:induction false} DecimalAccumulates(n: nat)
    requires n < TWO64
    ensures Accumulate(Decimal(n)) == Some(n) && AllDigits(Decimal(n))
    ensures n > 0 ==> Decimal(n)[0] != ZERO
  {
    if n < 10 {
      assert Decimal(n)[..0] == [];
    } else {
      DecimalAccumulates(n / 10);
      assert Decimal(n)[..|Decimal(n)| - 1] == Decimal(n / 10);
    }
  }

  lemma {:induction false} DecimalLength(n: nat, width: nat)
    requires width > 0 && n < Pow10(width)
    ensures |Decimal(n)| <= width
  {
    if n >= 10 {
      DecimalLength(n / 10, width - 1);
    }
  }

  lemma KeysFitTwentyDigits(n: nat)
    requires n < TWO64
    ensures |Decimal(n)| <= 20
  {
    assert Pow10(5) == 100_000;
    assert Pow10(10) == 10_000_000_000;
    assert Pow10(15) == 1_000_000_000_000_000;
    assert Pow10(20) == 100_000_000_000_000_000_000;
    DecimalLength(n, 20);
  }

  /** Digits without a leading zero are the decimal form of their value. */
  lemma {:induction false} AccumulateIsDecimal(digits: Text)
    requires digits != [] && digits[0] != ZERO && Accumulate(digits).Some?
    ensures AllDigits(digits) && digits == Decimal(Accumulate(digits).value) && 0 < Accumulate(digits).value < TWO64
  {
    var n := |digits| - 1;
    assert digits == digits[..n] + [digits[n]];
    if n == 0 {
      assert digits[..0] == [];
    } else {
      AccumulateIsDecimal(digits[..n]);
      var high, low := Accumulate(digits[..n]).value, digits[n] - ZERO;
      assert (high * 10 + low) / 10 == high && (high * 10 + low) % 10 == low;
    }
  }

  lemma SlashAfterDigits(digits: Text, rest: Text)
    requires AllDigits(digits)
    ensures Slash(digits + [SLASH] + rest) == Some(|digits|)
  {
    var t := digits + [SLASH] + rest;
    assert t[|digits|] == SLASH;
    assert forall i | 0 <= i < |digits| :: t[i] == digits[i];
  }

  lemma NamesDiffer()
    ensures forall name :: NameOf(NameText(name)) == Some(name)
  {
    assert |NameText(Database)| == 8 && |NameText(Wal)| == 12 && |NameText(Rollback)| == 16 && |NameText(Shm)| == 12;
    assert NameText(Wal)[9] == 'w' as int && NameText(Shm)[9] == 's' as int;
  }

  lemma SplitPrinted(digits: Text, rest: Text)
    requires AllDigits(digits)
    ensures Parse([SLASH] + digits + [SLASH] + rest) == ParseParts(digits, rest)
  {
    var t := [SLASH] + digits + [SLASH] + rest;
    var input := t[1..];
    assert input == digits + [SLASH] + rest;
    SlashAfterDigits(digits, rest);
    assert input[..|digits|] == digits && input[|digits| + 1..] == rest;
  }

  lemma PrintParses(key: nat, name: Name)
    requires 0 < key < TWO64
    ensures Parse(Print(key, name)) == Some((key, name))
  {
    DecimalAccumulates(key);
    KeysFitTwentyDigits(key);
    SplitPrinted(Decimal(key), NameText(name));
    NamesDiffer();
    assert NameOf(NameText(name)) == Some(name);
  }

  lemma ParsedIsPrinted(t: Text, key: nat, name: Name)
    requires Parse(t) == Some((key, name))
    ensures 0 < key < TWO64 && t == Print(key, name)
  {
    var input := t[1..];
    var split := Slash(input).value;
    var digits, rest := input[..split], input[split + 1..];
    AccumulateIsDecimal(digits);
    assert digits == Decimal(key) && rest == NameText(name);
    assert t == [SLASH] + digits + [SLASH] + rest;
  }

  /** The parser accepts exactly the printed tokens with a nonzero 64-bit key: no aliases, no
      leading zeros, no overflow, no other names. */
  lemma ParseIffPrinted(t: Text, key: nat, name: Name)
    ensures Parse(t) == Some((key, name)) <==> 0 < key < TWO64 && t == Print(key, name)
  {
    if 0 < key < TWO64 && t == Print(key, name) {
      PrintParses(key, name);
    } else if Parse(t) == Some((key, name)) {
      ParsedIsPrinted(t, key, name);
    }
  }

  /** Every printed token fits the scanned window with its terminator. */
  lemma PrintedFits(key: nat, name: Name)
    requires 0 < key < TWO64
    ensures |Print(key, name)| < 64 && 0 !in Print(key, name)
  {
    KeysFitTwentyDigits(key);
    DecimalAccumulates(key);
    var digits := Decimal(key);
    forall b | b in Print(key, name) ensures b != 0 {
      if b in digits {
        var i :| 0 <= i < |digits| && digits[i] == b;
      } else if b in NameText(name) {
        NameTextNoNul(name);
      }
    }
  }

  lemma NameTextNoNul(name: Name)
    ensures 0 !in NameText(name) && |NameText(name)| <= 16
  {
    forall i | 0 <= i < |NameText(name)| ensures NameText(name)[i] != 0 {
      match name {
        case Database => assert "state.db"[i] as int > 0;
        case Wal => assert "state.db-wal"[i] as int > 0;
        case Rollback => assert "state.db-journal"[i] as int > 0;
        case Shm => assert "state.db-shm"[i] as int > 0;
      }
    }
  }

  /** `Name::request`: at most 64 bytes of a NUL-terminated string are looked at, which is enough
      for every token; what it finds is exactly the key and name the string was printed from. */
  method Request(memory: seq<byte>) returns (found: Option<(nat, Name)>)
    requires 0 in memory
    ensures forall n | 0 <= n < |memory| && memory[n] == 0 && 0 !in memory[..n] ::
              forall key: nat, name {:trigger Print(key, name)} :: found == Some((key, name)) <==> 0 < key < TWO64 && memory[..n] == Print(key, name)
  {
    var len := 0;
    while len < 64 && len < |memory|
      invariant 0 <= len <= 64 && len <= |memory| && 0 !in memory[..len]
    {
      if memory[len] == 0 {
        forall key: nat, name ensures Parse(memory[..len]) == Some((key, name)) <==> 0 < key < TWO64 && memory[..len] == Print(key, name) {
          ParseIffPrinted(memory[..len], key, name);
        }
        OneTerminator(memory, len);
        return Parse(memory[..len]);
      }
      assert memory[..len + 1] == memory[..len] + [memory[len]];
      len := len + 1;
    }
    forall n, key: nat, name | 0 <= n < |memory| && memory[n] == 0 && 0 !in memory[..n] && 0 < key < TWO64
      ensures memory[..n] != Print(key, name)
    {
      PrintedFits(key, name);
      NotBefore(memory, len, n);
    }
    return None;
  }

  lemma ZeroWithin(memory: seq<byte>, n: nat, len: nat)
    requires n < len <= |memory| && memory[n] == 0
    ensures 0 in memory[..len]
  {
    assert memory[..len][n] == 0;
  }

  lemma OneTerminator(memory: seq<byte>, at: nat)
    requires at < |memory| && memory[at] == 0 && 0 !in memory[..at]
    ensures forall n | 0 <= n < |memory| && memory[n] == 0 && 0 !in memory[..n] :: n == at
  {
    forall n: nat | n < |memory| && memory[n] == 0 && 0 !in memory[..n] ensures n == at {
      if n < at {
        ZeroWithin(memory, n, at);
        assert false;
      } else if at < n {
        ZeroWithin(memory, at, n);
        assert false;
      }
    }
  }

  lemma NotBefore(memory: seq<byte>, len: nat, n: nat)
    requires len <= |memory| && 0 !in memory[..len] && n < |memory| && memory[n] == 0
    ensures n >= len
  {
    if n < len {
      ZeroWithin(memory, n, len);
      assert false;
    }
  }
}
