/** Milestone references: a uuid left-padded into 32 bytes of hex (apps/api/src/chain/events.ts). */
module UuidRef {
  import opened Basics

  /** ASCII lower case. */
  function Lower(c: char): char {
    if 'A' <= c <= 'Z' then c - 'A' + 'a' else c
  }

  function ToLower(s: string): string {
    seq(|s|, i requires 0 <= i < |s| => Lower(s[i]))
  }

  function Undash(s: string): string {
    if s == "" then ""
    else (if s[0] == '-' then "" else [s[0]]) + Undash(s[1..])
  }

  function UuidToBytes32(uuid: string): string {
    "0x" + PadStart(ToLower(Undash(uuid)), 64)
  }

  function StripPrefix(b32: string): string {
    if |b32| >= 2 && b32[..2] == "0x" then b32[2..] else b32
  }

  /** 32 characters in the 8-4-4-4-12 form. */
  function Grouped(t: string): string
    requires |t| == 32
  {
    t[..8] + "-" + t[8..12] + "-" + t[12..16] + "-" + t[16..20] + "-" + t[20..]
  }

  function Bytes32ToUuid(b32: string): Option<string> {
    var hex := ToLower(StripPrefix(b32));
    if |hex| != 64 then None
    else if hex[..32] != Zeros(32) then None
    else Some(Grouped(hex[32..]))
  }

  // ---- Uuids in text form ----

  predicate IsHex(c: char) {
    '0' <= c <= '9' || 'a' <= c <= 'f' || 'A' <= c <= 'F'
  }

  /** The hex-and-dash form of section 4 of RFC 9562. */
  predicate IsUuid(u: string) {
    && |u| == 36
    && forall i :: 0 <= i < 36 ==> if i in {8, 13, 18, 23} then u[i] == '-' else IsHex(u[i])
  }

  lemma {:induction false} UndashConcat(s: string, t: string)
    ensures Undash(s + t) == Undash(s) + Undash(t)
  {
    if s == "" {
      assert s + t == t;
    } else {
      assert (s + t)[1..] == s[1..] + t;
      UndashConcat(s[1..], t);
    }
  }

  lemma {:induction false} UndashShape(s: string)
    ensures |Undash(s)| <= |s|
    ensures |Undash(s)| == |s| <==> '-' !in s
    ensures '-' !in s ==> Undash(s) == s
  {
    if s != "" {
      UndashShape(s[1..]);
      assert s == [s[0]] + s[1..];
    }
  }

  lemma UndashGroup(s: string, t: string)
    ensures Undash(s + "-" + t) == Undash(s) + Undash(t)
  {
    UndashConcat(s + "-", t);
    UndashDash(s);
  }

  lemma UndashDash(s: string)
    ensures Undash(s + "-") == Undash(s)
  {
    UndashConcat(s, "-");
    assert "-"[1..] == "";
    assert Undash("-") == "";
    assert Undash(s) + "" == Undash(s);
  }

  /** Removing the dashes undoes the grouping, apart from dashes that were there before. */
  lemma UndashGrouped(t: string)
    requires |t| == 32
    ensures Undash(Grouped(t)) == Undash(t)
  {
    var a, b, c, d, e := t[..8], t[8..12], t[12..16], t[16..20], t[20..];
    UndashGroup(a + "-" + b + "-" + c + "-" + d, e);
    UndashGroup(a + "-" + b + "-" + c, d);
    UndashGroup(a + "-" + b, c);
    UndashGroup(a, b);
    UndashConcat(a + b + c + d, e);
    UndashConcat(a + b + c, d);
    UndashConcat(a + b, c);
    UndashConcat(a, b);
    assert t == a + b + c + d + e;
  }

  /** A uuid is the grouping of its 32 hex digits. */
  lemma UuidGroups(u: string) returns (t: string)
    requires IsUuid(u)
    ensures |t| == 32 && u == Grouped(t) && '-' !in t && Undash(u) == t
    ensures forall i :: 0 <= i < 32 ==> IsHex(t[i])
  {
    t := u[..8] + u[9..13] + u[14..18] + u[19..23] + u[24..];
    assert t[..8] == u[..8] && t[8..12] == u[9..13] && t[12..16] == u[14..18] && t[16..20] == u[19..23] && t[20..] == u[24..];
    assert u == Grouped(t);
    forall i | 0 <= i < 32
      ensures IsHex(t[i])
    {
      var j := if i < 8 then i else if i < 12 then i + 1 else if i < 16 then i + 2 else if i < 20 then i + 3 else i + 4;
      assert t[i] == u[j] && IsHex(u[j]);
    }
    UndashGrouped(t);
    UndashShape(t);
  }

  lemma LowerGrouped(t: string)
    requires |t| == 32
    ensures |ToLower(t)| == 32 && ToLower(Grouped(t)) == Grouped(ToLower(t))
  {
  }

  lemma LowerIdempotent(s: string)
    ensures ToLower(ToLower(s)) == ToLower(s)
  {
  }

  lemma EncodedShape(t: string)
    requires |t| == 32
    ensures PadStart(t, 64) == Zeros(32) + t && |PadStart(t, 64)| == 64
    ensures PadStart(t, 64)[..32] == Zeros(32) && PadStart(t, 64)[32..] == t
    ensures StripPrefix("0x" + PadStart(t, 64)) == PadStart(t, 64)
    ensures ToLower(Zeros(32) + t) == Zeros(32) + ToLower(t)
  {
  }

  /** Decoding inverts encoding for every uuid, whatever its leading digits, up to case. */
  lemma DecodeEncode(u: string)
    requires IsUuid(u)
    ensures Bytes32ToUuid(UuidToBytes32(u)) == Some(ToLower(u))
  {
    var t := UuidGroups(u);
    EncodedShape(ToLower(t));
    LowerIdempotent(t);
    LowerGrouped(t);
  }

  /** The same hex digit, in lower case. */
  predicate SameDigit(c: char, d: char) {
    if 'A' <= c <= 'F' then d as int - 'a' as int == c as int - 'A' as int else d == c
  }

  lemma LowerDigit(c: char)
    requires IsHex(c)
    ensures SameDigit(c, Lower(c))
  {
  }

  /** A reference is the prefix, 32 zeros and the uuid's 32 digits in lower case, in their order. */
  lemma ReferenceShape(u: string)
    requires IsUuid(u)
    ensures |UuidToBytes32(u)| == 66 && UuidToBytes32(u)[..2] == "0x" && UuidToBytes32(u)[2..34] == Zeros(32)
    ensures |Undash(u)| == 32 && forall i :: 0 <= i < 32 ==> SameDigit(Undash(u)[i], UuidToBytes32(u)[34..][i])
  {
    var t := UuidGroups(u);
    var digits := ToLower(t);
    EncodedShape(digits);
    var b := UuidToBytes32(u);
    assert b == "0x" + (Zeros(32) + digits);
    assert b[34..] == digits;
    forall i | 0 <= i < 32
      ensures SameDigit(t[i], digits[i])
    {
      LowerDigit(t[i]);
    }
  }

  /** The encoding tells any two uuids apart that differ in more than case. */
  lemma EncodeInjective(u: string, v: string)
    requires IsUuid(u) && IsUuid(v)
    ensures UuidToBytes32(u) == UuidToBytes32(v) <==> ToLower(u) == ToLower(v)
  {
    DecodeEncode(u);
    DecodeEncode(v);
    if ToLower(u) == ToLower(v) {
      var s := UuidGroups(u);
      var t := UuidGroups(v);
      LowerGrouped(s);
      LowerGrouped(t);
      GroupedInjective(ToLower(s), ToLower(t));
    }
  }

  lemma GroupedInjective(s: string, t: string)
    requires |s| == 32 && |t| == 32 && Grouped(s) == Grouped(t)
    ensures s == t
  {
    var g := Grouped(s);
    forall i | 0 <= i < 32
      ensures s[i] == t[i]
    {
      var j := if i < 8 then i else if i < 12 then i + 1 else if i < 16 then i + 2 else if i < 20 then i + 3 else i + 4;
      assert g[j] == s[i] && Grouped(t)[j] == t[i];
    }
  }

  /** The digits behind the padding of an accepted reference. */
  lemma TailOfPrefixed(b: string, hex: string, t: string)
    requires |b| == 66 && hex == ToLower(StripPrefix(b)) && |hex| == 64 && t == hex[32..]
    ensures b == "0x" + StripPrefix(b) && ToLower(b) == "0x" + hex
    ensures ToLower(t) == t && forall i :: 0 <= i < 32 ==> t[i] == Lower(b[34 + i])
  {
    assert b == "0x" + StripPrefix(b);
    assert ToLower(b) == "0x" + hex;
    forall i | 0 <= i < 32
      ensures t[i] == Lower(b[34 + i])
    {
      assert t[i] == hex[32 + i];
    }
    assert ToLower(t) == t;
  }

  /** A dash of a prefixed reference stands behind the padding. */
  lemma DashBehindPadding(b: string, hex: string, t: string)
    requires |b| == 66 && hex == ToLower(StripPrefix(b)) && |hex| == 64 && t == hex[32..] && hex[..32] == Zeros(32)
    requires '-' in b
    ensures '-' in t
  {
    TailOfPrefixed(b, hex, t);
    var i :| 0 <= i < |b| && b[i] == '-';
    assert ToLower(b)[i] == '-';
    assert forall k :: 0 <= k < 32 ==> hex[k] == hex[..32][k] == '0';
    assert i < 2 || hex[i - 2] == '-';
    assert t[i - 34] == '-';
  }

  lemma EncodeTail(t: string)
    requires |t| == 32 && '-' !in t && ToLower(t) == t
    ensures UuidToBytes32(Grouped(t)) == "0x" + (Zeros(32) + t)
  {
    UndashGrouped(t);
    UndashShape(t);
    EncodedShape(t);
  }

  /**
   * Re-encoding what was decoded gives the reference back, in lower case,
   * exactly when the reference had its 0x prefix and no stray dash: the decoder
   * checks neither.
   */
  lemma EncodeDecode(b: string)
    requires Bytes32ToUuid(b).Some?
    ensures UuidToBytes32(Bytes32ToUuid(b).value) == ToLower(b) <==> (|b| == 66 && '-' !in b)
  {
    var hex := ToLower(StripPrefix(b));
    var t := hex[32..];
    assert hex == Zeros(32) + t;
    if |b| == 66 {
      TailOfPrefixed(b, hex, t);
      if '-' !in b {
        EncodeTail(t);
      } else {
        DashBehindPadding(b, hex, t);
        NoDashInEncoding(Bytes32ToUuid(b).value);
      }
    } else {
      EncodingIsLong(Bytes32ToUuid(b).value);
    }
  }

  lemma {:induction false} UndashHasNone(s: string)
    ensures '-' !in Undash(s)
  {
    if s != "" { UndashHasNone(s[1..]); }
  }

  lemma NoDashInEncoding(u: string)
    ensures '-' !in UuidToBytes32(u)
  {
    UndashHasNone(u);
    var s := Undash(u);
    assert '-' !in ToLower(s);
  }

  lemma EncodingIsLong(u: string)
    ensures |UuidToBytes32(u)| >= 66
  {
  }

  /** A reference the decoder accepts and the encoder does not give back. */
  lemma StrayDash()
    ensures var b := "0x" + Zeros(63) + "-";
      Bytes32ToUuid(b).Some? && UuidToBytes32(Bytes32ToUuid(b).value) != b
  {
    var b := "0x" + Zeros(63) + "-";
    assert StripPrefix(b) == Zeros(63) + "-";
    var hex := ToLower(StripPrefix(b));
    assert hex[..32] == Zeros(32);
    NoDashInEncoding(Bytes32ToUuid(b).value);
    assert b[65] == '-';
  }
}
