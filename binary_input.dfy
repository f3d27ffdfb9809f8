/** The little-endian reads `System.IO.BinaryReader` performs on the
    archive, as functions of the bytes and a position, and a reader object
    whose position advances as it reads. */
module BinaryInput {
  import opened Base
  import opened Numbers

  /** Bytes left from `pos` on (a position may lie past the end after a seek). */
  function Remaining(data: seq<byte>, pos: nat): nat
  {
    if pos <= |data| then |data| - pos else 0
  }

  /** Exactly n bytes, or EndOfStream when fewer remain. */
  function BytesAt(data: seq<byte>, pos: nat, n: nat): (r: Result<Parsed<seq<byte>>>)
    ensures r.Ok? <==> pos + n <= |data|
    ensures r.Ok? ==> r.value.next == pos + n && |r.value.value| == n
  {
    if pos + n <= |data| then Ok(Parsed(data[pos..pos + n], pos + n)) else Err(EndOfStream)
  }

  function ByteAt(data: seq<byte>, pos: nat): (r: Result<Parsed<byte>>)
    ensures r.Ok? <==> pos < |data|
    ensures r.Ok? ==> r.value == Parsed(data[pos], pos + 1)
  {
    var b :- BytesAt(data, pos, 1);
    Ok(Parsed(b.value[0], b.next))
  }

  /** ReadBoolean: one byte, true when it is not zero. */
  function BooleanAt(data: seq<byte>, pos: nat): (r: Result<Parsed<bool>>)
    ensures r.Ok? <==> pos < |data|
    ensures r.Ok? ==> r.value == Parsed(data[pos] != 0, pos + 1)
  {
    var b :- ByteAt(data, pos);
    Ok(Parsed(b.value != 0, b.next))
  }

  /** The four bytes at `pos` as a little-endian unsigned number. */
  function Word32(data: seq<byte>, pos: nat): nat
    requires pos + 4 <= |data|
  {
    data[pos] as nat + 0x100 * data[pos + 1] as nat + 0x1_0000 * data[pos + 2] as nat + 0x100_0000 * data[pos + 3] as nat
  }

  lemma Word32IsLE(data: seq<byte>, pos: nat)
    requires pos + 4 <= |data|
    ensures Word32(data, pos) == LE(data[pos..pos + 4])
  {
    LE4(data[pos..pos + 4]);
  }

  /** Four bytes, or EndOfStream when fewer remain. */
  function Word32At(data: seq<byte>, pos: nat): (r: Result<Parsed<nat>>)
    ensures r.Ok? <==> pos + 4 <= |data|
    ensures r.Ok? ==> r.value.next == pos + 4 && r.value.value < 0x1_0000_0000
  {
    if pos + 4 <= |data| then Ok(Parsed(Word32(data, pos), pos + 4)) else Err(EndOfStream)
  }

  function Int32At(data: seq<byte>, pos: nat): (r: Result<Parsed<int>>)
    ensures r.Ok? <==> pos + 4 <= |data|
    ensures r.Ok? ==> r.value.next == pos + 4 && -0x8000_0000 <= r.value.value < 0x8000_0000
  {
    var w :- Word32At(data, pos);
    Ok(Parsed(Signed32(w.value), w.next))
  }

  function UInt32At(data: seq<byte>, pos: nat): (r: Result<Parsed<int>>)
    ensures r.Ok? <==> pos + 4 <= |data|
    ensures r.Ok? ==> r.value.next == pos + 4 && 0 <= r.value.value < 0x1_0000_0000
  {
    var w :- Word32At(data, pos);
    Ok(Parsed(w.value, w.next))
  }

  function Int64At(data: seq<byte>, pos: nat): (r: Result<Parsed<int>>)
    ensures r.Ok? <==> pos + 8 <= |data|
    ensures r.Ok? ==> r.value.next == pos + 8
  {
    var b :- BytesAt(data, pos, 8);
    Ok(Parsed(Signed64(LE(b.value)), b.next))
  }

  function UInt64At(data: seq<byte>, pos: nat): (r: Result<Parsed<int>>)
    ensures r.Ok? <==> pos + 8 <= |data|
    ensures r.Ok? ==> r.value.next == pos + 8 && r.value.value >= 0
  {
    var b :- BytesAt(data, pos, 8);
    Ok(Parsed(LE(b.value), b.next))
  }

  /** ReadSingle, kept as its IEEE 754 binary32 bit pattern. */
  function SingleAt(data: seq<byte>, pos: nat): (r: Result<Parsed<nat>>)
    ensures r.Ok? <==> pos + 4 <= |data|
    ensures r.Ok? ==> r.value.next == pos + 4 && r.value.value < 0x1_0000_0000
  {
    Word32At(data, pos)
  }

  /** ReadDouble, kept as its IEEE 754 binary64 bit pattern. */
  function DoubleAt(data: seq<byte>, pos: nat): (r: Result<Parsed<nat>>)
    ensures r.Ok? <==> pos + 8 <= |data|
    ensures r.Ok? ==> r.value.next == pos + 8
  {
    var b :- BytesAt(data, pos, 8);
    Ok(Parsed(LE(b.value), b.next))
  }

  /** Read7BitEncodedInt: seven bits per byte, low groups first, while the
      high bit is set; the fifth byte may carry only four bits. The 32 bits
      gathered are cast to `int`. */
  function VarIntAt(data: seq<byte>, pos: nat): (r: Result<Parsed<int>>)
    ensures r.Ok? ==> pos < r.value.next <= pos + 5 && r.value.next <= |data|
  {
    VarIntFrom(data, pos, 0, 0)
  }

  /** The weight 2^(7i) of the i-th seven-bit group. */
  function Weight(i: nat): nat
    requires i <= 4
  {
    if i == 0 then 1 else if i == 1 then 0x80 else if i == 2 then 0x4000 else if i == 3 then 0x20_0000 else 0x1000_0000
  }

  /** The accumulator after the i-th byte: its low seven bits join at weight 2^(7i). */
  function Accumulate(acc: nat, b: nat, i: nat): nat
    requires i <= 4
  {
    acc + (b % 128) * Weight(i)
  }

  function VarIntFrom(data: seq<byte>, pos: nat, i: nat, acc: nat): (r: Result<Parsed<int>>)
    requires i <= 4
    ensures r.Ok? ==> pos < r.value.next <= pos + 5 - i && r.value.next <= |data|
    decreases 4 - i
  {
    var b :- ByteAt(data, pos);
    var acc' := Accumulate(acc, b.value as nat, i);
    if i < 4 then
      if b.value < 128 then Ok(Parsed(Signed32(acc'), b.next))
      else VarIntFrom(data, b.next, i + 1, acc')
    else if b.value > 15 then Err(BadVarInt)
    else Ok(Parsed(Signed32(acc'), b.next))
  }

  /** The payload bytes of ReadString: a 7-bit encoded byte count, then
      that many bytes. A negative count is an IOException. */
  function StringBytesAt(data: seq<byte>, pos: nat): (r: Result<Parsed<seq<byte>>>)
    ensures r.Ok? ==> pos + |r.value.value| < r.value.next <= |data|
    ensures r.Ok? ==> r.value.value == data[r.value.next - |r.value.value|..r.value.next]
  {
    var len :- VarIntAt(data, pos);
    if len.value < 0 then Err(InvalidStringLength)
    else if len.value == 0 then Ok(Parsed([], len.next))
    else BytesAt(data, len.next, len.value)
  }

  /** ReadString: an empty payload is "" without decoding; any other payload
      goes through the UTF-8 decoder `utf8`. */
  function StringAt(utf8: seq<byte> -> string, data: seq<byte>, pos: nat): (r: Result<Parsed<string>>)
    ensures r.Ok? ==> pos < r.value.next <= |data|
  {
    var b :- StringBytesAt(data, pos);
    Ok(Parsed(if b.value == [] then "" else utf8(b.value), b.next))
  }

  /** Write7BitEncodedInt for a non-negative value: the writer whose output
      ReadString's length prefix reads. */
  function Encode7Bit(n: nat): (bs: seq<byte>)
    ensures |bs| > 0
  {
    if n < 128 then [n as byte] else [(n % 128 + 128) as byte] + Encode7Bit(n / 128)
  }

  lemma Distribute(q: nat, r: nat, p: nat)
    ensures (128 * q + r) * p == q * (p * 128) + r * p
  {
  }

  lemma MulMono(a: nat, b: nat, p: nat)
    requires a <= b
    ensures a * p <= b * p
  {
  }

  /** The arithmetic of one continuation byte: the low seven bits join the
      accumulator and the rest of the value moves up seven bits. */
  lemma ContinuationStep(p: nat, acc: nat, n: nat, total: nat)
    requires acc < p && total == acc + n * p && total < 0x1_0000_0000
    ensures acc + (n % 128) * p < p * 128
    ensures total == acc + (n % 128) * p + (n / 128) * (p * 128)
  {
    var q, r := n / 128, n % 128;
    assert n == 128 * q + r;
    Distribute(q, r, p);
    MulMono(r, 127, p);
  }

  /** The fifth byte of a length: it holds the top four bits. */
  lemma VarIntLastByte(data: seq<byte>, pos: nat, acc: nat)
    requires pos < |data| && data[pos] <= 15
    ensures VarIntFrom(data, pos, 4, acc) == Ok(Parsed(Signed32(Accumulate(acc, data[pos] as nat, 4)), pos + 1))
  {
  }

  /** A byte below 128 ends the length. */
  lemma VarIntFinalByte(data: seq<byte>, pos: nat, i: nat, acc: nat)
    requires i < 4 && pos < |data| && data[pos] < 128
    ensures VarIntFrom(data, pos, i, acc) == Ok(Parsed(Signed32(Accumulate(acc, data[pos] as nat, i)), pos + 1))
  {
  }

  /** A byte of 128 or more adds its low seven bits and reading goes on. */
  lemma VarIntMoreBytes(data: seq<byte>, pos: nat, i: nat, acc: nat)
    requires i < 4 && pos < |data| && data[pos] >= 128
    ensures VarIntFrom(data, pos, i, acc) == VarIntFrom(data, pos + 1, i + 1, Accumulate(acc, data[pos] as nat, i))
  {
  }

  /** The fifth byte of an encoded value below 2^32. */
  lemma EncodedLastByte(data: seq<byte>, pos: nat, acc: nat, n: nat, total: nat)
    requires total == acc + n * Weight(4) && total < 0x1_0000_0000
    requires pos + |Encode7Bit(n)| <= |data| && data[pos..pos + |Encode7Bit(n)|] == Encode7Bit(n)
    ensures VarIntFrom(data, pos, 4, acc) == Ok(Parsed(Signed32(total), pos + |Encode7Bit(n)|))
  {
    if n >= 16 {
      MulMono(16, n, Weight(4));
    }
    assert Encode7Bit(n) == [n as byte];
    assert data[pos] == n as byte;
    VarIntLastByte(data, pos, acc);
  }

  /** A value below 128 before the fifth byte: one byte ends it. */
  lemma EncodedFinalByte(data: seq<byte>, pos: nat, i: nat, acc: nat, n: nat, total: nat)
    requires i < 4 && n < 128 && total == acc + n * Weight(i)
    requires pos + |Encode7Bit(n)| <= |data| && data[pos..pos + |Encode7Bit(n)|] == Encode7Bit(n)
    ensures VarIntFrom(data, pos, i, acc) == Ok(Parsed(Signed32(total), pos + |Encode7Bit(n)|))
  {
    assert Encode7Bit(n) == [n as byte];
    assert data[pos] == n as byte;
    VarIntFinalByte(data, pos, i, acc);
  }

  /** A value of 128 or more: its first byte, and the encoding of the rest
      of the value that follows it. */
  lemma EncodedMoreBytes(data: seq<byte>, pos: nat, i: nat, acc: nat, n: nat, total: nat)
    requires i < 4 && n >= 128
    requires acc < Weight(i) && total == acc + n * Weight(i) && total < 0x1_0000_0000
    requires pos + |Encode7Bit(n)| <= |data| && data[pos..pos + |Encode7Bit(n)|] == Encode7Bit(n)
    ensures Accumulate(acc, n, i) < Weight(i + 1)
    ensures total == Accumulate(acc, n, i) + (n / 128) * Weight(i + 1)
    ensures |Encode7Bit(n)| == 1 + |Encode7Bit(n / 128)|
    ensures pos + 1 + |Encode7Bit(n / 128)| <= |data|
    ensures data[pos + 1..pos + 1 + |Encode7Bit(n / 128)|] == Encode7Bit(n / 128)
    ensures VarIntFrom(data, pos, i, acc) == VarIntFrom(data, pos + 1, i + 1, Accumulate(acc, n, i))
  {
    var enc := Encode7Bit(n);
    var p := Weight(i);
    assert Weight(i + 1) == p * 128;
    ContinuationStep(p, acc, n, total);
    var rest := Encode7Bit(n / 128);
    assert enc == [(n % 128 + 128) as byte] + rest;
    assert data[pos] == enc[0];
    assert data[pos + 1..pos + 1 + |rest|] == rest by {
      assert data[pos..pos + |enc|][1..] == enc[1..];
    }
    assert Accumulate(acc, data[pos] as nat, i) == Accumulate(acc, n, i);
    VarIntMoreBytes(data, pos, i, acc);
  }

  /** Reading the encoding of n from the i-th byte on, with `acc` gathered
      so far, yields the whole value `total`. */
  lemma {:induction false} VarIntFromEncoded(data: seq<byte>, pos: nat, i: nat, acc: nat, n: nat, total: nat)
    requires i <= 4
    requires acc < Weight(i) && total == acc + n * Weight(i) && total < 0x1_0000_0000
    requires pos + |Encode7Bit(n)| <= |data| && data[pos..pos + |Encode7Bit(n)|] == Encode7Bit(n)
    ensures VarIntFrom(data, pos, i, acc) == Ok(Parsed(Signed32(total), pos + |Encode7Bit(n)|))
    decreases 4 - i
  {
    if i == 4 {
      EncodedLastByte(data, pos, acc, n, total);
    } else if n < 128 {
      EncodedFinalByte(data, pos, i, acc, n, total);
    } else {
      EncodedMoreBytes(data, pos, i, acc, n, total);
      VarIntFromEncoded(data, pos + 1, i + 1, Accumulate(acc, n, i), n / 128, total);
    }
  }

  /** A non-negative length below 2^31 written with Write7BitEncodedInt is
      read back unchanged by Read7BitEncodedInt. */
  lemma VarIntRoundTrip(n: nat, rest: seq<byte>)
    requires n < 0x8000_0000
    ensures VarIntAt(Encode7Bit(n) + rest, 0) == Ok(Parsed(n, |Encode7Bit(n)|))
  {
    var data := Encode7Bit(n) + rest;
    assert data[0..|Encode7Bit(n)|] == Encode7Bit(n);
    VarIntFromEncoded(data, 0, 0, 0, n, n);
  }

  /** A string written as its length prefix and its bytes is read back as
      the decoding of those bytes, and the read stops right after them. */
  lemma StringRoundTrip(utf8: seq<byte> -> string, payload: seq<byte>, rest: seq<byte>)
    requires |payload| < 0x8000_0000
    ensures var data := Encode7Bit(|payload|) + payload + rest;
      StringAt(utf8, data, 0)
      == Ok(Parsed(if payload == [] then "" else utf8(payload), |Encode7Bit(|payload|)| + |payload|))
  {
    var prefix := Encode7Bit(|payload|);
    var data := prefix + payload + rest;
    assert data == prefix + (payload + rest);
    VarIntRoundTrip(|payload|, payload + rest);
    assert data[|prefix|..|prefix| + |payload|] == payload;
  }

  /** ReadBytes(n): up to n bytes, fewer when the stream ends first. */
  function BytesUpTo(data: seq<byte>, pos: nat, n: nat): (bs: seq<byte>)
    ensures |bs| == if n <= Remaining(data, pos) then n else Remaining(data, pos)
  {
    if pos + n <= |data| then data[pos..pos + n]
    else if pos <= |data| then data[pos..]
    else []
  }

  /** The outcome of a reader method matches the reading function `spec`:
      the same value and the position past it, or the same exception. */
  predicate Follows<T(==)>(r: Result<T>, spec: Result<Parsed<T>>, pos: nat)
  {
    match spec
    case Ok(p) => r == Ok(p.value) && pos == p.next
    case Err(e) => r == Err(e)
  }

  /** A BinaryReader over the archive's bytes with its stream position. */
  class ByteReader {
    const data: seq<byte>
    var pos: nat

    constructor (data: seq<byte>)
      ensures this.data == data && pos == 0
    {
      this.data := data;
      pos := 0;
    }

    /** `BaseStream.Seek(offset, SeekOrigin.Begin)`. */
    method Seek(offset: nat)
      modifies this
      ensures pos == offset
    {
      pos := offset;
    }

    method Take<T(==)>(spec: Result<Parsed<T>>) returns (r: Result<T>)
      modifies this
      ensures Follows(r, spec, pos)
      ensures spec.Err? ==> pos == old(pos)
    {
      match spec
      case Ok(p) =>
        r := Ok(p.value);
        pos := p.next;
      case Err(e) =>
        r := Err(e);
    }

    method ReadByte() returns (r: Result<byte>)
      modifies this
      ensures Follows(r, ByteAt(data, old(pos)), pos)
    {
      r := Take(ByteAt(data, pos));
    }

    method ReadBoolean() returns (r: Result<bool>)
      modifies this
      ensures Follows(r, BooleanAt(data, old(pos)), pos)
    {
      r := Take(BooleanAt(data, pos));
    }

    method ReadInt32() returns (r: Result<int>)
      modifies this
      ensures Follows(r, Int32At(data, old(pos)), pos)
    {
      r := Take(Int32At(data, pos));
    }

    method ReadUInt32() returns (r: Result<int>)
      modifies this
      ensures Follows(r, UInt32At(data, old(pos)), pos)
    {
      r := Take(UInt32At(data, pos));
    }

    method ReadInt64() returns (r: Result<int>)
      modifies this
      ensures Follows(r, Int64At(data, old(pos)), pos)
    {
      r := Take(Int64At(data, pos));
    }

    method ReadUInt64() returns (r: Result<int>)
      modifies this
      ensures Follows(r, UInt64At(data, old(pos)), pos)
    {
      r := Take(UInt64At(data, pos));
    }

    method ReadSingle() returns (r: Result<nat>)
      modifies this
      ensures Follows(r, SingleAt(data, old(pos)), pos)
    {
      r := Take(SingleAt(data, pos));
    }

    method ReadDouble() returns (r: Result<nat>)
      modifies this
      ensures Follows(r, DoubleAt(data, old(pos)), pos)
    {
      r := Take(DoubleAt(data, pos));
    }

    method ReadString(utf8: seq<byte> -> string) returns (r: Result<string>)
      modifies this
      ensures Follows(r, StringAt(utf8, data, old(pos)), pos)
    {
      r := Take(StringAt(utf8, data, pos));
    }

    /** ReadBytes(n): never throws at the end of the stream, returns fewer bytes. */
    method ReadBytes(n: nat) returns (bs: seq<byte>)
      modifies this
      ensures bs == BytesUpTo(data, old(pos), n)
      ensures pos == old(pos) + |bs|
    {
      bs := BytesUpTo(data, pos, n);
      pos := pos + |bs|;
    }

    /** Read(buffer, 0, count): fills the front of `buffer` with up to
        `count` bytes and leaves the rest of it as it was. */
    method Read(buffer: array<byte>, count: nat) returns (k: nat)
      requires count <= buffer.Length
      modifies this, buffer
      ensures k == |BytesUpTo(data, old(pos), count)| && pos == old(pos) + k
      ensures buffer[..k] == BytesUpTo(data, old(pos), count)
      ensures buffer[k..] == old(buffer[k..])
    {
      var got := BytesUpTo(data, pos, count);
      k := |got|;
      var i := 0;
      while i < k
        invariant 0 <= i <= k
        invariant buffer[..i] == got[..i]
        invariant buffer[i..] == old(buffer[i..])
        invariant pos == old(pos)
      {
        buffer[i] := got[i];
        i := i + 1;
      }
      pos := pos + k;
    }
  }
}
