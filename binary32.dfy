/** The conversion of an unsigned 64-bit integer to the nearest IEEE 754
    binary32 value (round half to even), given as its bit pattern. This is
    what an implicit `ulong` to `float` conversion does. */
module Binary32 {
  import opened Numbers

  /** The position of the highest set bit. */
  function Log2(u: nat): nat
    requires u >= 1
  {
    if u < 2 then 0 else 1 + Log2(u / 2)
  }

  /** Log2 is the exponent of the power of two just below u. */
  lemma {:induction false} Log2Exact(u: nat, k: nat)
    requires Pow2(k) <= u < Pow2(k + 1)
    ensures Log2(u) == k
  {
    if k > 0 {
      assert Pow2(k - 1) <= u / 2 < Pow2(k);
      Log2Exact(u / 2, k - 1);
    }
  }

  /** u rounded to 24 significant bits: u is close to m * 2^shift with
      m < 2^24, halfway cases going to the even m. */
  function Round24(u: nat): (r: (nat, nat))
    requires u >= 1
  {
    var top := Log2(u);
    if top <= 23 then (u, 0)
    else
      var shift := top - 23;
      var q := u / Pow2(shift);
      var rest := u % Pow2(shift);
      var half := Pow2(shift) / 2;
      var m := if rest > half || (rest == half && q % 2 == 1) then q + 1 else q;
      if m == 0x100_0000 then (0x80_0000, shift + 1) else (m, shift)
  }

  /** `m << k` */
  function ShiftLeft(m: nat, k: nat): nat
  {
    m * Pow2(k)
  }

  /** The binary32 bit pattern of the float nearest to u (u below 2^64). */
  function NearestSingleBits(u: nat): nat
  {
    if u == 0 then 0
    else
      var (m, shift) := Round24(u);
      if m == 0 then 0
      else
        var top := Log2(m);
        if top > 23 then 0
        else
          // the significand m * 2^(23 - top) has its leading bit at
          // 2^23; dropping that hidden bit takes one off the biased exponent
          var exponent := top + shift;
          (exponent + 126) * 0x80_0000 + ShiftLeft(m, 23 - top)
  }

  lemma Pow2Values()
    ensures Pow2(1) == 2 && Pow2(23) == 0x80_0000 && Pow2(24) == 0x100_0000 && Pow2(25) == 0x200_0000
  {
    Pow2Add(12, 12);
    assert Pow2(12) == 4096;
    Pow2Add(1, 23);
    Pow2Add(24, 1);
  }

  /** 2^24 + 1 is the first integer a float cannot hold: it lies halfway
      between 2^24 and 2^24 + 2 and rounds to the even significand, 2^24. */
  lemma FirstInexactInteger()
    ensures NearestSingleBits(0x100_0001) == NearestSingleBits(0x100_0000) == 0x4B80_0000
  {
    Pow2Values();
    Log2Exact(0x100_0001, 24);
    Log2Exact(0x100_0000, 24);
    Log2Exact(0x80_0000, 23);
    assert Round24(0x100_0001) == (0x80_0000, 1);
    assert Round24(0x100_0000) == (0x80_0000, 1);
  }
}
