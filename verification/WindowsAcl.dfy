/** The scan that decides whether a Windows DACL grants only admitted principals, against the
    layouts of [MS-DTYP] sections 2.4.2 (SID), 2.4.4 (ACE) and 2.4.5 (ACL). */
module WindowsAcl {
  import opened Wrappers
  import opened Bytes

  // ---- The scan ----

  function U16(lo: byte, hi: byte): nat {
    lo + 256 * hi
  }

  /** `valid_sid`: revision 1, at most fifteen sub-authorities, and exactly that many. */
  predicate ValidSid(sid: Text) {
    |sid| >= 8 && sid[0] == 1 && sid[1] <= 15 && |sid| == 8 + sid[1] * 4
  }

  predicate AllValid(sids: seq<Text>) {
    forall sid | sid in sids :: ValidSid(sid)
  }

  /** The length of a basic allow or deny ACE at the front of `body` whose allowed SID is trusted. */
  function FirstAce(body: Text, trusted: seq<Text>): (length: Option<nat>)
    ensures length.Some? ==> 8 <= length.value <= |body|
  {
    if |body| < 4 || (body[0] != 0 && body[0] != 1) then None
    else
      var length := U16(body[2], body[3]);
      if length > |body| || length < 8 then None
      else
        var sid := body[8..length];
        if !ValidSid(sid) || (body[0] == 0 && sid !in trusted) then None else Some(length)
  }

  predicate Scan(body: Text, count: nat, trusted: seq<Text>) {
    count == 0
    || match FirstAce(body, trusted)
       case None => false
       case Some(length) => Scan(body[length..], count - 1, trusted)
  }

  predicate IsPrivate(bytes: Text, trusted: seq<Text>) {
    && |bytes| >= 8 && (bytes[0] == 2 || bytes[0] == 4) && AllValid(trusted)
    && var size := U16(bytes[2], bytes[3]);
       8 <= size <= |bytes| && Scan(bytes[8..size], U16(bytes[4], bytes[5]), trusted)
  }

  /** `is_private_acl`. */
  method IsPrivateAcl(bytes: Text, trusted: seq<Text>) returns (ok: bool)
    ensures ok == IsPrivate(bytes, trusted)
  {
    if |bytes| < 8 || (bytes[0] != 2 && bytes[0] != 4) || !AllValid(trusted) {
      return false;
    }
    var size, count := U16(bytes[2], bytes[3]), U16(bytes[4], bytes[5]);
    if size < 8 || size > |bytes| {
      return false;
    }
    var offset := 8;
    for k := 0 to count
      invariant 8 <= offset <= size
      invariant Scan(bytes[8..size], count, trusted) == Scan(bytes[offset..size], count - k, trusted)
    {
      ghost var body := bytes[offset..size];
      if size - offset < 4 {
        return false;
      }
      var kind := bytes[offset];
      if kind != 0 && kind != 1 {
        return false;
      }
      var length := U16(bytes[offset + 2], bytes[offset + 3]);
      var end := offset + length;
      if end > size || length < 8 {
        return false;
      }
      var sid := bytes[offset + 8..end];
      assert sid == body[8..length];
      if !ValidSid(sid) || (kind == 0 && sid !in trusted) {
        return false;
      }
      assert body[length..] == bytes[end..size];
      offset := end;
    }
    return true;
  }

  // ---- The documented layouts ----

  /** [MS-DTYP] 2.4.2: six authority bytes and up to fifteen 32-bit sub-authorities. */
  datatype Sid = Sid(authority: Text, subs: seq<Text>)

  predicate SidOk(sid: Sid) {
    |sid.authority| == 6 && |sid.subs| <= 15 && forall s | s in sid.subs :: |s| == 4
  }

  function Join(parts: seq<Text>): Text {
    if parts == [] then [] else parts[0] + Join(parts[1..])
  }

  function EncodeSid(sid: Sid): Text
    requires SidOk(sid)
  {
    [1, |sid.subs|] + sid.authority + Join(sid.subs)
  }

  /** [MS-DTYP] 2.4.4: a basic ACE, type 0 (allow) or 1 (deny), with its mask and SID. */
  datatype Ace = Ace(allow: bool, flags: byte, mask: Text, sid: Sid)

  predicate AceOk(ace: Ace) {
    |ace.mask| == 4 && SidOk(ace.sid)
  }

  function Le16(n: nat): Text
    requires n < 0x1_0000
  {
    [n % 256, n / 256]
  }

  function AceLength(ace: Ace): nat
    requires AceOk(ace)
  {
    16 + 4 * |ace.sid.subs|
  }

  function EncodeAce(ace: Ace): Text
    requires AceOk(ace)
  {
    [if ace.allow then 0 else 1, ace.flags] + Le16(AceLength(ace)) + ace.mask + EncodeSid(ace.sid)
  }

  function EncodeAces(aces: seq<Ace>): Text
    requires forall a | a in aces :: AceOk(a)
  {
    if aces == [] then [] else EncodeAce(aces[0]) + EncodeAces(aces[1..])
  }

  /** [MS-DTYP] 2.4.5: header, ACEs, and unused bytes inside (`slack`) and after (`tail`) the
      declared size. */
  datatype Acl = Acl(revision: byte, sbz1: byte, sbz2: Text, aces: seq<Ace>, slack: Text, tail: Text)

  predicate AclOk(acl: Acl) {
    && (acl.revision == 2 || acl.revision == 4) && |acl.sbz2| == 2
    && (forall a | a in acl.aces :: AceOk(a)) && |acl.aces| < 0x1_0000
    && 8 + |EncodeAces(acl.aces)| + |acl.slack| < 0x1_0000
  }

  function Body(acl: Acl): Text
    requires AclOk(acl)
  {
    EncodeAces(acl.aces) + acl.slack
  }

  function Encode(acl: Acl): Text
    requires AclOk(acl)
  {
    [acl.revision, acl.sbz1] + Le16(8 + |Body(acl)|) + Le16(|acl.aces|) + acl.sbz2 + Body(acl) + acl.tail
  }

  /** Every grant names a trusted principal. */
  predicate GrantsOnly(aces: seq<Ace>, trusted: seq<Text>) {
    forall a | a in aces :: Grants(a, trusted)
  }

  predicate Grants(ace: Ace, trusted: seq<Text>) {
    AceOk(ace) && (ace.allow ==> EncodeSid(ace.sid) in trusted)
  }

  // ---- SIDs ----

  lemma {:induction false} JoinLength(parts: seq<Text>)
    requires forall s | s in parts :: |s| == 4
    ensures |Join(parts)| == 4 * |parts|
  {
    if parts != [] {
      assert parts[0] in parts && forall s | s in parts[1..] :: s in parts;
      JoinLength(parts[1..]);
    }
  }

  function Chunks(t: Text): (parts: seq<Text>)
    requires |t| % 4 == 0
    ensures 4 * |parts| == |t| && Join(parts) == t && forall s | s in parts :: |s| == 4
  {
    if t == [] then []
    else
      assert t == t[..4] + t[4..];
      [t[..4]] + Chunks(t[4..])
  }

  lemma EncodedSidValid(sid: Sid)
    requires SidOk(sid)
    ensures ValidSid(EncodeSid(sid)) && |EncodeSid(sid)| == 8 + 4 * |sid.subs|
  {
    JoinLength(sid.subs);
  }

  function DecodeSid(bytes: Text): (sid: Sid)
    requires ValidSid(bytes)
    ensures SidOk(sid) && EncodeSid(sid) == bytes
  {
    var subs := Chunks(bytes[8..]);
    var sid := Sid(bytes[2..8], subs);
    assert bytes == [1, |subs|] + bytes[2..8] + bytes[8..];
    sid
  }

  // ---- Scanning what was encoded ----

  lemma EncodedFirst(ace: Ace, rest: Text, trusted: seq<Text>)
    requires AceOk(ace)
    ensures |EncodeAce(ace)| == AceLength(ace)
    ensures FirstAce(EncodeAce(ace) + rest, trusted) ==
            if ace.allow && EncodeSid(ace.sid) !in trusted then None else Some(AceLength(ace))
    ensures (EncodeAce(ace) + rest)[AceLength(ace)..] == rest
  {
    EncodedSidValid(ace.sid);
    var body := EncodeAce(ace) + rest;
    assert |EncodeAce(ace)| == AceLength(ace);
    assert body[2] == AceLength(ace) % 256 && body[3] == AceLength(ace) / 256;
    assert body[8..AceLength(ace)] == EncodeSid(ace.sid);
  }

  lemma GrantsOnlyCons(aces: seq<Ace>, trusted: seq<Text>)
    requires aces != []
    ensures GrantsOnly(aces, trusted) <==> Grants(aces[0], trusted) && GrantsOnly(aces[1..], trusted)
  {
    assert aces == [aces[0]] + aces[1..];
    assert aces[0] in aces && forall a | a in aces[1..] :: a in aces;
  }

  lemma EncodeAcesHead(aces: seq<Ace>, slack: Text)
    requires aces != [] && forall a | a in aces :: AceOk(a)
    ensures AceOk(aces[0]) && forall a | a in aces[1..] :: AceOk(a)
    ensures EncodeAces(aces) + slack == EncodeAce(aces[0]) + (EncodeAces(aces[1..]) + slack)
  {
    assert aces[0] in aces && forall a | a in aces[1..] :: a in aces;
  }

  lemma ScanUnrolls(ace: Ace, rest: Text, count: nat, trusted: seq<Text>)
    requires AceOk(ace)
    ensures Scan(EncodeAce(ace) + rest, count + 1, trusted) <==> Grants(ace, trusted) && Scan(rest, count, trusted)
  {
    EncodedFirst(ace, rest, trusted);
  }

  lemma {:induction false} ScanEncoded(aces: seq<Ace>, slack: Text, trusted: seq<Text>)
    requires forall a | a in aces :: AceOk(a)
    ensures Scan(EncodeAces(aces) + slack, |aces|, trusted) <==> GrantsOnly(aces, trusted)
  {
    if aces != [] {
      EncodeAcesHead(aces, slack);
      GrantsOnlyCons(aces, trusted);
      ScanUnrolls(aces[0], EncodeAces(aces[1..]) + slack, |aces[1..]|, trusted);
      ScanEncoded(aces[1..], slack, trusted);
    }
  }

  function Header(acl: Acl): (header: Text)
    requires AclOk(acl)
    ensures |header| == 8 && header[0] == acl.revision
    ensures U16(header[2], header[3]) == 8 + |Body(acl)| && U16(header[4], header[5]) == |acl.aces|
  {
    [acl.revision, acl.sbz1] + Le16(8 + |Body(acl)|) + Le16(|acl.aces|) + acl.sbz2
  }

  lemma Middle(header: Text, body: Text, tail: Text)
    ensures (header + body + tail)[|header|..|header| + |body|] == body
  {
  }

  /** Encoding any ACL and scanning it answers exactly: trusted names are SIDs, and every grant
      names one of them. */
  lemma EncodeThenScan(acl: Acl, trusted: seq<Text>)
    requires AclOk(acl)
    ensures IsPrivate(Encode(acl), trusted) <==> AllValid(trusted) && GrantsOnly(acl.aces, trusted)
  {
    assert Encode(acl) == Header(acl) + Body(acl) + acl.tail;
    Middle(Header(acl), Body(acl), acl.tail);
    ScanEncoded(acl.aces, acl.slack, trusted);
  }

  // ---- Decoding what was accepted ----

  lemma Le16Reads(bytes: Text, at: nat)
    requires at + 2 <= |bytes|
    ensures U16(bytes[at], bytes[at + 1]) < 0x1_0000 && Le16(U16(bytes[at], bytes[at + 1])) == bytes[at..at + 2]
  {
  }

  lemma SplitAce(body: Text, length: nat)
    requires 8 <= length <= |body|
    ensures body[..length] == [body[0], body[1]] + body[2..4] + body[4..8] + body[8..length]
  {
  }

  lemma DecodeFirst(body: Text, trusted: seq<Text>) returns (ace: Ace)
    requires FirstAce(body, trusted).Some?
    ensures Grants(ace, trusted) && EncodeAce(ace) == body[..FirstAce(body, trusted).value]
  {
    var length := FirstAce(body, trusted).value;
    ace := FromParts(body[0], body[1], body[2..4], body[4..8], body[8..length]) by {
      Le16Reads(body, 2);
    }
    SplitAce(body, length);
  }

  /** The ACE with these fields. */
  lemma FromParts(kind: byte, flags: byte, length: Text, mask: Text, bytes: Text) returns (ace: Ace)
    requires (kind == 0 || kind == 1) && |mask| == 4 && ValidSid(bytes) && length == Le16(8 + |bytes|)
    ensures AceOk(ace) && ace.allow == (kind == 0) && EncodeSid(ace.sid) == bytes
    ensures EncodeAce(ace) == [kind, flags] + length + mask + bytes
  {
    var sid := DecodeSid(bytes);
    EncodedSidValid(sid);
    ace := Ace(kind == 0, flags, mask, sid);
  }

  lemma EncodeAcesCons(ace: Ace, rest: seq<Ace>, slack: Text, trusted: seq<Text>)
    requires Grants(ace, trusted) && GrantsOnly(rest, trusted)
    ensures GrantsOnly([ace] + rest, trusted)
    ensures EncodeAces([ace] + rest) + slack == EncodeAce(ace) + (EncodeAces(rest) + slack)
  {
    var aces := [ace] + rest;
    assert aces[1..] == rest;
    assert forall a | a in aces :: a == ace || a in rest;
  }

  lemma {:induction false} DecodeScanned(body: Text, count: nat, trusted: seq<Text>) returns (aces: seq<Ace>, slack: Text)
    requires Scan(body, count, trusted)
    ensures |aces| == count && GrantsOnly(aces, trusted)
    ensures body == EncodeAces(aces) + slack
  {
    if count == 0 {
      aces, slack := [], body;
    } else {
      var length := FirstAce(body, trusted).value;
      var ace := DecodeFirst(body, trusted);
      var rest;
      rest, slack := DecodeScanned(body[length..], count - 1, trusted);
      EncodeAcesCons(ace, rest, slack, trusted);
      aces := [ace] + rest;
      assert body == body[..length] + body[length..];
    }
  }

  lemma SplitAcl(bytes: Text, size: nat)
    requires 8 <= size <= |bytes|
    ensures bytes == [bytes[0], bytes[1]] + bytes[2..4] + bytes[4..6] + bytes[6..8] + bytes[8..size] + bytes[size..]
  {
  }

  /** An ACL with these fields encodes to their concatenation. */
  lemma FromFields(bytes: Text, size: nat, aces: seq<Ace>, slack: Text) returns (acl: Acl)
    requires 8 <= size <= |bytes| && size == U16(bytes[2], bytes[3]) && |aces| == U16(bytes[4], bytes[5])
    requires (bytes[0] == 2 || bytes[0] == 4) && (forall a | a in aces :: AceOk(a))
    requires bytes[8..size] == EncodeAces(aces) + slack
    ensures AclOk(acl) && acl.aces == aces && bytes == Encode(acl)
  {
    acl := Acl(bytes[0], bytes[1], bytes[6..8], aces, slack, bytes[size..]);
    Le16Reads(bytes, 2);
    Le16Reads(bytes, 4);
    SplitAcl(bytes, size);
    assert |bytes[8..size]| == |EncodeAces(aces)| + |slack|;
    assert Body(acl) == bytes[8..size];
  }

  lemma DecodeAccepted(bytes: Text, trusted: seq<Text>) returns (acl: Acl)
    requires IsPrivate(bytes, trusted)
    ensures AclOk(acl) && bytes == Encode(acl) && GrantsOnly(acl.aces, trusted)
  {
    var size, count := U16(bytes[2], bytes[3]), U16(bytes[4], bytes[5]);
    var aces, slack := DecodeScanned(bytes[8..size], count, trusted);
    assert forall a | a in aces :: Grants(a, trusted) && AceOk(a);
    acl := FromFields(bytes, size, aces, slack);
  }

  /** The scan accepts a byte string if and only if it is the encoding of some ACL in the documented
      layout, made of basic allow and deny ACEs only, whose every grant is trusted. */
  lemma AcceptsExactlyPrivateAcls(bytes: Text, trusted: seq<Text>)
    ensures IsPrivate(bytes, trusted) <==>
            AllValid(trusted) && exists acl :: AclOk(acl) && bytes == Encode(acl) && GrantsOnly(acl.aces, trusted)
  {
    if IsPrivate(bytes, trusted) {
      var acl := DecodeAccepted(bytes, trusted);
    }
    if AllValid(trusted) {
      if acl :| AclOk(acl) && bytes == Encode(acl) && GrantsOnly(acl.aces, trusted) {
        EncodeThenScan(acl, trusted);
      }
    }
  }

  // ---- UTF-16 admission ----

  const MAX_UNITS: nat := 32_767

  /** `terminated_utf16`: units are lossless; an embedded NUL or too many units is refused. At most
      one unit more than fits is looked at. */
  method TerminatedUtf16(units: seq<nat>) returns (buffer: Option<seq<nat>>)
    ensures buffer == if |units| <= MAX_UNITS && 0 !in units then Some(units + [0]) else None
  {
    var taken := if |units| > MAX_UNITS + 1 then units[..MAX_UNITS + 1] else units;
    var built := [];
    for k := 0 to |taken|
      invariant built == taken[..k] && k <= MAX_UNITS && 0 !in built
    {
      if taken[k] == 0 || |built| == MAX_UNITS {
        assert taken[k] in units;
        return None;
      }
      assert taken[..k + 1] == taken[..k] + [taken[k]];
      built := built + [taken[k]];
    }
    assert taken[..|taken|] == taken == units;
    return Some(built + [0]);
  }
}
