/** 128-bit type and asset identifiers (`System.Guid`) built from 16 bytes,
    and their 32-digit "N" text form. */
module Guids {
  import opened Base

  /** `new Guid(bytes)` for a 16-byte array: the Guid keeps the bytes as given. */
  type Guid = g: seq<byte> | |g| == 16 witness [0, 0, 0, 0, 0, 0, 0, 0, 0, 0, 0, 0, 0, 0, 0, 0]

  /** `Guid.Empty`, the all-zero identifier. */
  const Empty: Guid := [0, 0, 0, 0, 0, 0, 0, 0, 0, 0, 0, 0, 0, 0, 0, 0]

  function HexDigit(x: nat): char
    requires x < 16
  {
    if x < 10 then ('0' as int + x) as char else ('a' as int + x - 10) as char
  }

  predicate IsHexDigit(c: char)
  {
    '0' <= c <= '9' || 'a' <= c <= 'f'
  }

  function HexValue(c: char): (x: nat)
    ensures x < 16
  {
    if '0' <= c <= '9' then c as int - '0' as int
    else if 'a' <= c <= 'f' then c as int - 'a' as int + 10
    else 0
  }

  /** The byte shown at text position j: the first three groups of a Guid are
      little-endian integers and print most significant byte first. */
  function TextIndex(j: nat): (k: nat)
    requires j < 16
    ensures k < 16
  {
    if j < 4 then 3 - j else if j < 8 then (if j % 2 == 0 then j + 1 else j - 1) else j
  }

  function Nibble(g: Guid, i: nat): nat
    requires i < 32
  {
    var b := g[TextIndex(i / 2)] as nat;
    if i % 2 == 0 then b / 16 else b % 16
  }

  /** `guid.ToString("N")`: 32 lowercase hexadecimal digits, no separators. */
  function FormatN(g: Guid): (s: string)
    ensures |s| == 32
    ensures forall i :: 0 <= i < 32 ==> IsHexDigit(s[i])
  {
    seq(32, i requires 0 <= i < 32 => HexDigit(Nibble(g, i)))
  }

  /** `Guid.ParseExact(s, "N")` on well-formed text. */
  function ParseN(s: string): Guid
    requires |s| == 32
  {
    seq(16, j requires 0 <= j < 16 =>
      (16 * HexValue(s[2 * TextIndex(j)]) + HexValue(s[2 * TextIndex(j) + 1])) as byte)
  }

  lemma HexRoundTrip(x: nat)
    requires x < 16
    ensures HexValue(HexDigit(x)) == x
  {
  }

  lemma TextIndexInvolution(j: nat)
    requires j < 16
    ensures TextIndex(TextIndex(j)) == j
  {
  }

  lemma ParseByte(g: Guid, j: nat)
    requires j < 16
    ensures ParseN(FormatN(g))[j] == g[j]
  {
    var s := FormatN(g);
    var t := TextIndex(j);
    TextIndexInvolution(j);
    var b := g[j] as nat;
    assert Nibble(g, 2 * t) == b / 16;
    assert Nibble(g, 2 * t + 1) == b % 16;
    HexRoundTrip(b / 16);
    HexRoundTrip(b % 16);
    assert HexValue(s[2 * t]) == b / 16;
    assert HexValue(s[2 * t + 1]) == b % 16;
  }

  /** Parsing the "N" text of a Guid gives back that Guid. */
  lemma ParseFormatN(g: Guid)
    ensures ParseN(FormatN(g)) == g
  {
    forall j | 0 <= j < 16
      ensures ParseN(FormatN(g))[j] == g[j]
    {
      ParseByte(g, j);
    }
  }

  /** Two Guids print the same "N" text exactly when they are equal, so the
      text is a faithful dictionary key. */
  lemma FormatNInjective(a: Guid, b: Guid)
    ensures FormatN(a) == FormatN(b) <==> a == b
  {
    if FormatN(a) == FormatN(b) {
      ParseFormatN(a);
      ParseFormatN(b);
    }
  }

  /** The all-zero id prints as 32 zeros. */
  lemma EmptyFormatN()
    ensures FormatN(Empty) == seq(32, _ => '0')
  {
  }
}
