/**
 * Register codec of the power meter: combining 16-bit Modbus register words
 * into the raw fixed-point integers the meter reports.
 *
 * The meter's float scale factors (2.44141e-7 for the 32-bit quantities,
 * 1e-5 for energy) are a final multiplication that this module leaves out:
 * every decoder returns the exact integer the source multiplies.
 */
module RegisterCodec {
  import opened Arithmetic

  const WordModulus: int := 0x1_0000               // 2^16
  const U32Modulus: int := 0x1_0000_0000           // 2^32
  const U48Modulus: int := 0x1_0000_0000_0000      // 2^48
  const U64Modulus: int := 0x1_0000_0000_0000_0000 // 2^64
  /** Largest high word of a non-negative signed 32-bit value. */
  const S32HighMax: int := 32767

  /** A value a 16-bit register can hold. */
  predicate IsWord(x: int) {
    0 <= x < WordModulus
  }

  /** The `count` words starting at `offset` exist and are 16-bit values. */
  predicate WordsAt(ws: seq<int>, offset: nat, count: nat) {
    offset + count <= |ws| && forall i :: offset <= i < offset + count ==> IsWord(ws[i])
  }

  // ---------------------------------------------------------------------------
  // Decoders (the integer part of from_u32_be, from_s32_be, from_u64_le)
  // ---------------------------------------------------------------------------

  /** Unsigned 32-bit value, high word first. */
  function FromU32Be(ws: seq<int>, offset: nat): (r: int)
    requires offset + 2 <= |ws|
    ensures WordsAt(ws, offset, 2) ==> 0 <= r < U32Modulus
  {
    ws[offset] * WordModulus + ws[offset + 1]
  }

  /** Signed 32-bit value, high word first, two's complement. */
  function FromS32Be(ws: seq<int>, offset: nat): (r: int)
    requires offset + 2 <= |ws|
    ensures WordsAt(ws, offset, 2) ==> -U32Modulus / 2 <= r < U32Modulus / 2
    ensures WordsAt(ws, offset, 2) ==> (r < 0 <==> ws[offset] > S32HighMax)
  {
    var a, b := ws[offset], ws[offset + 1];
    if a <= S32HighMax then a * WordModulus + b
    else a * WordModulus + b - U32Modulus
  }

  /** Unsigned 64-bit value, lowest word first. */
  function FromU64Le(ws: seq<int>, offset: nat): (r: int)
    requires offset + 4 <= |ws|
    ensures WordsAt(ws, offset, 4) ==> 0 <= r < U64Modulus
  {
    ws[offset] + WordModulus * ws[offset + 1] + U32Modulus * ws[offset + 2] + U48Modulus * ws[offset + 3]
  }

  // ---------------------------------------------------------------------------
  // Encoders: the register layout a device uses for a value (partners of the decoders)
  // ---------------------------------------------------------------------------

  /** The two words, high first, of an unsigned 32-bit value. */
  function ToU32Be(n: int): (ws: seq<int>)
    requires 0 <= n < U32Modulus
    ensures |ws| == 2 && WordsAt(ws, 0, 2)
  {
    [n / WordModulus, n % WordModulus]
  }

  /** The two words, high first, of a signed 32-bit value in two's complement. */
  function ToS32Be(n: int): (ws: seq<int>)
    requires -U32Modulus / 2 <= n < U32Modulus / 2
    ensures |ws| == 2 && WordsAt(ws, 0, 2)
  {
    ToU32Be(n % U32Modulus)
  }

  /** The four words, lowest first, of an unsigned 64-bit value. */
  function ToU64Le(n: int): (ws: seq<int>)
    requires 0 <= n < U64Modulus
    ensures |ws| == 4 && WordsAt(ws, 0, 4)
  {
    var q1 := n / WordModulus;
    var q2 := q1 / WordModulus;
    [n % WordModulus, q1 % WordModulus, q2 % WordModulus, q2 / WordModulus]
  }

  // ---------------------------------------------------------------------------
  // Properties
  // ---------------------------------------------------------------------------

  /** The signed decoder agrees with the unsigned one up to the 2^32 wrap at high word 32768. */
  lemma S32BeIsTwosComplement(ws: seq<int>, offset: nat)
    requires offset + 2 <= |ws|
    ensures ws[offset] <= S32HighMax ==> FromS32Be(ws, offset) == FromU32Be(ws, offset)
    ensures ws[offset] > S32HighMax ==> FromS32Be(ws, offset) == FromU32Be(ws, offset) - U32Modulus
  {
  }

  /** Both signed and unsigned readings of the same words are congruent modulo 2^32. */
  lemma S32BeCongruentU32Be(ws: seq<int>, offset: nat)
    requires WordsAt(ws, offset, 2)
    ensures FromS32Be(ws, offset) % U32Modulus == FromU32Be(ws, offset)
  {
    var u := FromU32Be(ws, offset);
    var s := FromS32Be(ws, offset);
    if ws[offset] <= S32HighMax {
      assert s == u;
    } else {
      assert s == u - U32Modulus && -U32Modulus / 2 <= s < 0;
      ModOfShift(s, 1, U32Modulus);
    }
  }

  /**
   * The sign boundary sits exactly between high words 32767 and 32768: for
   * every low word, high word 32767 gives the top 2^16 values of the range and
   * 32768 the bottom 2^16.
   */
  lemma S32BeSignBoundary(low: int)
    ensures FromS32Be([S32HighMax, low], 0) == U32Modulus / 2 - WordModulus + low
    ensures FromS32Be([S32HighMax + 1, low], 0) == -U32Modulus / 2 + low
    ensures FromS32Be([WordModulus - 1, WordModulus - 1], 0) == -1
  {
  }

  /** Encoding then decoding an unsigned 32-bit value gives it back. */
  lemma U32BeRoundTrip(n: int)
    requires 0 <= n < U32Modulus
    ensures FromU32Be(ToU32Be(n), 0) == n
  {
    DivMod(n, WordModulus);
  }

  /** Decoding then encoding two words gives the same words back: the decoder is injective. */
  lemma U32BeSplitsBack(ws: seq<int>, offset: nat)
    requires WordsAt(ws, offset, 2)
    ensures ToU32Be(FromU32Be(ws, offset)) == ws[offset..offset + 2]
  {
    var a, b := ws[offset], ws[offset + 1];
    assert IsWord(a) && IsWord(b);
    DivModUnique(a * WordModulus + b, WordModulus, a, b);
  }

  /** Encoding then decoding a signed 32-bit value gives it back. */
  lemma S32BeRoundTrip(n: int)
    requires -U32Modulus / 2 <= n < U32Modulus / 2
    ensures FromS32Be(ToS32Be(n), 0) == n
  {
    var u := n % U32Modulus;
    U32BeRoundTrip(u);
    var ws := ToU32Be(u);
    DivMod(u, WordModulus);
    if n >= 0 {
      ModOfShift(n, 0, U32Modulus);
      assert u == n;
      assert ws[0] <= S32HighMax;
    } else {
      ModOfShift(n, 1, U32Modulus);
      assert u == n + U32Modulus;
      assert ws[0] > S32HighMax;
    }
  }

  /** Decoding then encoding two words as a signed value gives the same words back. */
  lemma S32BeSplitsBack(ws: seq<int>, offset: nat)
    requires WordsAt(ws, offset, 2)
    ensures ToS32Be(FromS32Be(ws, offset)) == ws[offset..offset + 2]
  {
    S32BeCongruentU32Be(ws, offset);
    U32BeSplitsBack(ws, offset);
  }

  /** Encoding then decoding an unsigned 64-bit value gives it back. */
  lemma U64LeRoundTrip(n: int)
    requires 0 <= n < U64Modulus
    ensures FromU64Le(ToU64Le(n), 0) == n
  {
    var w := WordModulus;
    var q1 := n / w;
    var q2 := q1 / w;
    var q3 := q2 / w;
    DivMod(n, w);
    DivMod(q1, w);
    DivMod(q2, w);
    assert n == n % w + w * (q1 % w) + w * w * (q2 % w) + w * w * w * q3;
  }

  /** Decoding then encoding four words gives the same words back: the decoder is injective. */
  lemma U64LeSplitsBack(ws: seq<int>, offset: nat)
    requires WordsAt(ws, offset, 4)
    ensures ToU64Le(FromU64Le(ws, offset)) == ws[offset..offset + 4]
  {
    var w := WordModulus;
    var w0, w1, w2, w3 := ws[offset], ws[offset + 1], ws[offset + 2], ws[offset + 3];
    assert IsWord(w0) && IsWord(w1) && IsWord(w2) && IsWord(w3);
    var n := FromU64Le(ws, offset);
    var t1 := w1 + w * w2 + w * w * w3;
    var t2 := w2 + w * w3;
    assert n == w0 + w * t1;
    assert t1 == w1 + w * t2;
    assert 0 <= t2 && 0 <= t1;
    DivModUnique(n, w, t1, w0);
    DivModUnique(t1, w, t2, w1);
    DivModUnique(t2, w, w3, w2);
  }
}
