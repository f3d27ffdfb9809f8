/** Little-endian integers, two's complement reinterpretation and the
    culture-invariant decimal text of an integer. */
module Numbers {
  import opened Base

  function Pow2(k: nat): (r: nat)
    ensures r >= 1
  {
    if k == 0 then 1 else 2 * Pow2(k - 1)
  }

  /** The unsigned value of `bs`, least significant byte first. */
  function LE(bs: seq<byte>): nat
  {
    if |bs| == 0 then 0 else bs[0] as nat + 256 * LE(bs[1..])
  }

  lemma {:induction false} Pow2Add(a: nat, b: nat)
    ensures Pow2(a + b) == Pow2(a) * Pow2(b)
  {
    if a > 0 {
      Pow2Add(a - 1, b);
      assert Pow2(a + b) == 2 * (Pow2(a - 1) * Pow2(b));
    }
  }

  /** One more byte multiplies the range by 256. */
  lemma Pow2Byte(k: nat)
    ensures Pow2(k + 8) == 256 * Pow2(k)
  {
    Pow2Add(8, k);
    assert Pow2(8) == 256;
  }

  /** A little-endian value of n bytes fits in 8n bits. */
  lemma {:induction false} LEBound(bs: seq<byte>)
    ensures LE(bs) < Pow2(8 * |bs|)
  {
    if |bs| > 0 {
      var rest := bs[1..];
      LEBound(rest);
      Pow2Byte(8 * |rest|);
      assert 8 * |bs| == 8 * |rest| + 8;
    }
  }

  /** Two byte strings of the same length with the same little-endian value
      are equal: the value determines every byte. */
  lemma {:induction false} LEInjective(a: seq<byte>, b: seq<byte>)
    requires |a| == |b| && LE(a) == LE(b)
    ensures a == b
  {
    if |a| > 0 {
      assert a[0] as nat == LE(a) % 256 && b[0] as nat == LE(b) % 256;
      assert LE(a[1..]) == LE(a) / 256 && LE(b[1..]) == LE(b) / 256;
      LEInjective(a[1..], b[1..]);
      assert a == [a[0]] + a[1..] && b == [b[0]] + b[1..];
    }
  }

  lemma LE4(bs: seq<byte>)
    requires |bs| == 4
    ensures LE(bs) == bs[0] as nat + 256 * bs[1] as nat + 65536 * bs[2] as nat + 16777216 * bs[3] as nat
  {
    assert bs[1..][1..] == bs[2..] && bs[2..][1..] == bs[3..] && bs[3..][1..] == bs[4..];
    assert LE(bs[4..]) == 0;
    assert LE(bs[3..]) == bs[3] as nat;
    assert LE(bs[2..]) == bs[2] as nat + 256 * bs[3] as nat;
    assert LE(bs[1..]) == bs[1] as nat + 256 * bs[2] as nat + 65536 * bs[3] as nat;
  }

  /** The 32-bit two's complement reading of an unsigned 32-bit value (a cast to `int`). */
  function Signed32(u: int): int
  {
    if u >= 0x8000_0000 then u - 0x1_0000_0000 else u
  }

  /** The 64-bit two's complement reading of an unsigned 64-bit value (a cast to `long`). */
  function Signed64(u: int): int
  {
    if u >= 0x8000_0000_0000_0000 then u - 0x1_0000_0000_0000_0000 else u
  }

  /** The 32-bit pattern of an `int`. */
  function Unsigned32(x: int): nat
  {
    x % 0x1_0000_0000
  }

  /** The number of passes of `for (var i = 0; i < n; i++)`. */
  function Count(n: int): nat
  {
    if n > 0 then n else 0
  }

  function DigitChar(d: nat): char
    requires d < 10
  {
    ('0' as int + d) as char
  }

  predicate IsDigit(c: char)
  {
    '0' <= c <= '9'
  }

  function Digits(n: nat): (s: string)
    ensures |s| > 0 && forall i :: 0 <= i < |s| ==> IsDigit(s[i])
  {
    if n < 10 then [DigitChar(n)] else Digits(n / 10) + [DigitChar(n % 10)]
  }

  /** `n.ToString(CultureInfo.InvariantCulture)` for an integer. */
  function DecimalText(n: int): string
  {
    if n < 0 then "-" + Digits(-n) else Digits(n)
  }

  function ParseDigits(s: string): nat
  {
    if |s| == 0 then 0
    else ParseDigits(s[..|s| - 1]) * 10 + (if IsDigit(s[|s| - 1]) then s[|s| - 1] as int - '0' as int else 0)
  }

  function ParseDecimal(s: string): int
  {
    if |s| > 0 && s[0] == '-' then 0 - ParseDigits(s[1..]) else ParseDigits(s)
  }

  lemma {:induction false} ParseDigitsOfDigits(n: nat)
    ensures ParseDigits(Digits(n)) == n
  {
    if n >= 10 {
      ParseDigitsOfDigits(n / 10);
      var s := Digits(n);
      assert s[..|s| - 1] == Digits(n / 10);
    }
  }

  /** The decimal text of an integer reads back as that integer, so distinct
      numbers are written as distinct texts. */
  lemma DecimalRoundTrip(n: int)
    ensures ParseDecimal(DecimalText(n)) == n
  {
    if n < 0 {
      ParseDigitsOfDigits(-n);
      assert DecimalText(n)[1..] == Digits(-n);
    } else {
      ParseDigitsOfDigits(n);
      assert IsDigit(Digits(n)[0]);
    }
  }
}
