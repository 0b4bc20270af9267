/** Identifiers, printed and read in the text forms of section 4 of RFC 9562 and of the identifier library. */
module Uuids {
  import opened Outcomes

  type Byte = b: int | 0 <= b < 256

  type Uuid = u: seq<Byte> | |u| == 16 witness [0, 0, 0, 0, 0, 0, 0, 0, 0, 0, 0, 0, 0, 0, 0, 0]

  const NIL_UUID: Uuid := [0, 0, 0, 0, 0, 0, 0, 0, 0, 0, 0, 0, 0, 0, 0, 0]

  function HexDigit(n: int): char
    requires 0 <= n < 16
  {
    if n < 10 then ('0' as int + n) as char else ('a' as int + n - 10) as char
  }

  /** The value of a hexadecimal digit of either case. */
  function HexValue(c: char): (v: Option<int>)
    ensures v.Some? ==> 0 <= v.value < 16
  {
    if '0' <= c <= '9' then Some(c as int - '0' as int)
    else if 'a' <= c <= 'f' then Some(c as int - 'a' as int + 10)
    else if 'A' <= c <= 'F' then Some(c as int - 'A' as int + 10)
    else None
  }

  function HexText(bytes: seq<Byte>): (s: string)
    ensures |s| == 2 * |bytes|
  {
    if bytes == [] then ""
    else [HexDigit(bytes[0] / 16), HexDigit(bytes[0] % 16)] + HexText(bytes[1..])
  }

  function ParseHex(s: string): (r: Option<seq<Byte>>)
    requires |s| % 2 == 0
    ensures r.Some? ==> 2 * |r.value| == |s|
  {
    if s == "" then Some([])
    else
      var hi, lo, rest := HexValue(s[0]), HexValue(s[1]), ParseHex(s[2..]);
      if hi.Some? && lo.Some? && rest.Some? then Some([(16 * hi.value + lo.value) as Byte] + rest.value)
      else None
  }

  function UuidText(u: Uuid): (s: string)
    ensures |s| == 36
  {
    HexText(u[0..4]) + "-" + HexText(u[4..6]) + "-" + HexText(u[6..8]) + "-" +
    HexText(u[8..10]) + "-" + HexText(u[10..16])
  }

  function ToUpper(c: char): char {
    if 'a' <= c <= 'z' then (c as int - 32) as char else c
  }

  function ParseDashed(s: string): Option<Uuid>
    requires |s| >= 36
  {
    if s[8] != '-' || s[13] != '-' || s[18] != '-' || s[23] != '-' then None
    else ParseHex(s[0..8] + s[9..13] + s[14..18] + s[19..23] + s[24..36])
  }

  /** The four text forms the identifier library reads: dashed, urn:uuid:, braced, and bare digits. */
  function ParseUuid(s: string): Option<Uuid> {
    if |s| == 36 then ParseDashed(s)
    else if |s| == 45 then
      if seq(9, i requires 0 <= i < 9 => ToUpper(s[i])) == "URN:UUID:" then ParseDashed(s[9..]) else None
    else if |s| == 38 then ParseDashed(s[1..])
    else if |s| == 32 then ParseHex(s)
    else None
  }

  lemma HexDigitRoundTrip(n: int)
    requires 0 <= n < 16
    ensures HexValue(HexDigit(n)) == Some(n)
  {
  }

  lemma {:induction false} HexRoundTrip(bytes: seq<Byte>)
    ensures ParseHex(HexText(bytes)) == Some(bytes)
  {
    if bytes != [] {
      var b, s := bytes[0], HexText(bytes);
      HexDigitRoundTrip(b / 16);
      HexDigitRoundTrip(b % 16);
      assert s[0] == HexDigit(b / 16) && s[1] == HexDigit(b % 16);
      assert s[2..] == HexText(bytes[1..]);
      HexRoundTrip(bytes[1..]);
      assert 16 * (b / 16) + b % 16 == b;
      assert [b] + bytes[1..] == bytes;
    }
  }

  lemma {:induction false} HexTextConcat(a: seq<Byte>, b: seq<Byte>)
    ensures HexText(a + b) == HexText(a) + HexText(b)
  {
    if a == [] {
      assert a + b == b;
    } else {
      assert (a + b)[1..] == a[1..] + b;
      HexTextConcat(a[1..], b);
    }
  }

  lemma {:induction false} HexTextNoColon(bytes: seq<Byte>)
    ensures ':' !in HexText(bytes)
  {
    if bytes != [] {
      HexTextNoColon(bytes[1..]);
    }
  }

  lemma UuidTextNoColon(u: Uuid)
    ensures ':' !in UuidText(u)
  {
    HexTextNoColon(u[0..4]);
    HexTextNoColon(u[4..6]);
    HexTextNoColon(u[6..8]);
    HexTextNoColon(u[8..10]);
    HexTextNoColon(u[10..16]);
  }

  /** Reading a printed identifier gives it back. */
  lemma UuidRoundTrip(u: Uuid)
    ensures ParseUuid(UuidText(u)) == Some(u)
  {
    DashedDigits(HexText(u[0..4]), HexText(u[4..6]), HexText(u[6..8]), HexText(u[8..10]), HexText(u[10..16]));
    HexTextConcat(u[0..4], u[4..6]);
    HexTextConcat(u[0..4] + u[4..6], u[6..8]);
    HexTextConcat(u[0..4] + u[4..6] + u[6..8], u[8..10]);
    HexTextConcat(u[0..4] + u[4..6] + u[6..8] + u[8..10], u[10..16]);
    assert u == u[0..4] + u[4..6] + u[6..8] + u[8..10] + u[10..16];
    HexRoundTrip(u);
  }

  /** The front of dashed text: a first group, a dash, and a second group, wherever the text goes on. */
  lemma DashBetween(front: string, group: string, tail: string)
    ensures var s := front + "-" + group + tail;
      s[..|front|] == front && s[|front|] == '-' && s[|front| + 1..|front| + 1 + |group|] == group
  {
  }

  /** Cutting dashed text at the dash positions recovers the five groups. */
  lemma DashedDigits(a: string, b: string, c: string, d: string, e: string)
    requires |a| == 8 && |b| == 4 && |c| == 4 && |d| == 4 && |e| == 12
    ensures ParseDashed(a + "-" + b + "-" + c + "-" + d + "-" + e) == ParseHex(a + b + c + d + e)
  {
    var upToB := a + "-" + b;
    var upToC := upToB + "-" + c;
    var upToD := upToC + "-" + d;
    var s := upToD + "-" + e;
    assert s[..23] == upToD && s[23] == '-' && s[24..36] == e by { DashBetween(upToD, e, ""); }
    assert upToD[..18] == upToC && upToD[18] == '-' && upToD[19..23] == d by { DashBetween(upToC, d, ""); }
    assert upToC[..13] == upToB && upToC[13] == '-' && upToC[14..18] == c by { DashBetween(upToB, c, ""); }
    assert upToB[..8] == a && upToB[8] == '-' && upToB[9..13] == b by { DashBetween(a, b, ""); }
    assert s[19..23] == s[..23][19..23] && s[..18] == s[..23][..18];
    assert s[14..18] == s[..18][14..18] && s[..13] == s[..18][..13];
    assert s[9..13] == s[..13][9..13] && s[0..8] == s[..13][..8];
  }

  /** The other forms that are read: after urn:uuid:, between braces, and without dashes. */
  lemma OtherForms(u: Uuid)
    ensures ParseUuid("urn:uuid:" + UuidText(u)) == Some(u) && ParseUuid("{" + UuidText(u) + "}") == Some(u)
    ensures ParseUuid(HexText(u)) == Some(u)
  {
    UuidRoundTrip(u);
    HexRoundTrip(u);
    var urn, braced := "urn:uuid:" + UuidText(u), "{" + UuidText(u) + "}";
    hide HexText, ParseHex, UuidText;
    assert urn[9..] == UuidText(u);
    assert forall i: nat :: i < 9 ==> ToUpper(urn[i]) == "URN:UUID:"[i];
    assert braced[1..][..36] == UuidText(u);
    DashedFront(UuidText(u), "}");
    assert braced[1..] == UuidText(u) + "}";
  }

  lemma DashedFront(s: string, rest: string)
    requires |s| == 36
    ensures ParseDashed(s + rest) == ParseDashed(s)
  {
    var t := s + rest;
    assert t[0..8] == s[0..8] && t[9..13] == s[9..13] && t[14..18] == s[14..18];
    assert t[19..23] == s[19..23] && t[24..36] == s[24..36];
  }

  /** Capital digits read like small ones. */
  lemma {:induction false} CapitalsReadAlike(s: string, t: string)
    requires |s| == |t| && |s| % 2 == 0
    requires forall i :: 0 <= i < |s| ==> t[i] == ToUpper(s[i])
    ensures ParseHex(t) == ParseHex(s)
  {
    if s != "" {
      assert HexValue(t[0]) == HexValue(s[0]) && HexValue(t[1]) == HexValue(s[1]);
      CapitalsReadAlike(s[2..], t[2..]);
    }
  }

  const HEX_DIGITS := "0123456789abcdef"

  lemma {:induction false} HexTextAt(bytes: seq<Byte>, i: nat)
    requires i < |bytes|
    ensures HexText(bytes)[2 * i] == HEX_DIGITS[bytes[i] / 16] && HexText(bytes)[2 * i + 1] == HEX_DIGITS[bytes[i] % 16]
  {
    if i == 0 {
      DigitsAre(bytes[0] / 16);
      DigitsAre(bytes[0] % 16);
    } else {
      HexTextAt(bytes[1..], i - 1);
    }
  }

  lemma DigitsAre(n: int)
    requires 0 <= n < 16
    ensures HexDigit(n) == HEX_DIGITS[n]
  {
  }

  /** Where the digits of a byte stand: groups of 4, 2, 2, 2 and 6 bytes with a dash between them. */
  function DigitPlace(i: nat): nat {
    2 * i + if i < 4 then 0 else if i < 6 then 1 else if i < 8 then 2 else if i < 10 then 3 else 4
  }

  /** The printed form, character by character: 36 of them, lower-case digits, and dashes at four places. */
  lemma UuidTextAt(u: Uuid, i: nat)
    requires i < 16
    ensures var text, at := UuidText(u), DigitPlace(i);
      && |text| == 36 && text[8] == '-' && text[13] == '-' && text[18] == '-' && text[23] == '-'
      && text[at] == HEX_DIGITS[u[i] / 16] && text[at + 1] == HEX_DIGITS[u[i] % 16]
  {
    hide HexText;
    if i < 4 { HexTextAt(u[0..4], i); }
    else if i < 6 { HexTextAt(u[4..6], i - 4); }
    else if i < 8 { HexTextAt(u[6..8], i - 6); }
    else if i < 10 { HexTextAt(u[8..10], i - 8); }
    else { HexTextAt(u[10..16], i - 10); }
  }

  lemma UuidTextInjective(u: Uuid, v: Uuid)
    requires UuidText(u) == UuidText(v)
    ensures u == v
  {
    UuidRoundTrip(u);
    UuidRoundTrip(v);
  }
}
