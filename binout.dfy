/**
 * The narrowing check `_wconv` of tools/common/binout.h and its use by the
 * big-endian writers `w8`, `w16` and `w32`. The file output itself
 * (`_w8`, `_w16`, `_w32`) is not part of this model.
 */
module BinOut {
  import opened Wrappers

  /** A C integer type: its width in bits and whether it is signed. */
  datatype CType = CType(bits: nat, signed: bool)

  const Int32Type := CType(32, true)
  const Int64Type := CType(64, true)
  const Uint64Type := CType(64, false)

  predicate ValidCType(t: CType)
  {
    t.bits == 8 || t.bits == 16 || t.bits == 32 || t.bits == 64
  }

  function Pow2(n: nat): (r: int)
    ensures r >= 1
  {
    if n == 0 then 1 else 2 * Pow2(n - 1)
  }

  /** The powers of two for the widths used here. */
  lemma {:induction false} Pow2Widths()
    ensures Pow2(8) == 0x100 && Pow2(16) == 0x1_0000 && Pow2(32) == 0x1_0000_0000
    ensures Pow2(63) == 0x8000_0000_0000_0000 && Pow2(64) == 0x1_0000_0000_0000_0000
  {
    Pow2Add(8, 8);
    Pow2Add(16, 16);
    Pow2Add(32, 31);
    Pow2Add(32, 32);
  }

  lemma {:induction false} Pow2Add(a: nat, b: nat)
    ensures Pow2(a + b) == Pow2(a) * Pow2(b)
  {
    if b > 0 {
      Pow2Add(a, b - 1);
    }
  }

  /** `v` is a value of type `t`. */
  predicate Representable(t: CType, v: int)
    requires ValidCType(t)
  {
    if t.signed then -Pow2(t.bits - 1) <= v < Pow2(t.bits - 1) else 0 <= v < Pow2(t.bits)
  }

  /** `(int64_t)v`: an unsigned 64-bit value of 2^63 or more wraps to a negative one. */
  function ToInt64(t: CType, v: int): int
  {
    if !t.signed && t.bits == 64 && v >= Pow2(63) then v - Pow2(64) else v
  }

  /**
   * `x >> n` on an `int64_t`: an arithmetic shift, that is floor division
   * by 2^n (Dafny's `/` floors when the divisor is positive).
   */
  function Asr(x: int, n: nat): int
  {
    x / Pow2(n)
  }

  /** The out-of-range report of `_wconv` (a fatal message and a failed assertion). */
  datatype Truncation = Truncation(value: int, ext: int)

  /**
   * `_wconv(type, v)` for a target of `targetBits` bits and an argument of
   * type `t`. When the argument is wider than the target, the bits above the
   * target must be a sign extension (`ext` is 0 or -1; the C comparison with
   * `(uint64_t)-1` converts `ext` to unsigned, so it is a test for -1). The
   * result is the C cast to the unsigned target, which is reduction modulo
   * 2^targetBits.
   */
  function Wconv(targetBits: nat, t: CType, v: int): (r: Result<nat, Truncation>)
    requires targetBits == 8 || targetBits == 16 || targetBits == 32
    requires ValidCType(t) && Representable(t, v)
    ensures r.Ok? <==> t.bits <= targetBits || -Pow2(targetBits) <= ToInt64(t, v) < Pow2(targetBits)
    ensures r.Ok? ==> r.value == v % Pow2(targetBits)
  {
    if targetBits < t.bits then
      var ext := Asr(ToInt64(t, v), targetBits);
      AsrSignRange(ToInt64(t, v), targetBits);
      if ext != 0 && ext != -1 then Err(Truncation(v, ext))
      else Ok(v % Pow2(targetBits))
    else
      Ok(v % Pow2(targetBits))
  }

  /** `w8`: narrow to `uint8_t`. */
  function W8(t: CType, v: int): (r: Result<nat, Truncation>)
    requires ValidCType(t) && Representable(t, v)
    ensures r.Ok? ==> r.value <= 0xFF
  {
    Pow2Widths();
    Wconv(8, t, v)
  }

  /** `w16`: narrow to `uint16_t`. */
  function W16(t: CType, v: int): (r: Result<nat, Truncation>)
    requires ValidCType(t) && Representable(t, v)
    ensures r.Ok? ==> r.value <= 0xFFFF
  {
    Pow2Widths();
    Wconv(16, t, v)
  }

  /** `w32`: narrow to `uint32_t`. */
  function W32(t: CType, v: int): (r: Result<nat, Truncation>)
    requires ValidCType(t) && Representable(t, v)
    ensures r.Ok? ==> r.value <= 0xFFFF_FFFF
  {
    Pow2Widths();
    Wconv(32, t, v)
  }

  /** The shift is 0 exactly on [0, 2^n) and -1 exactly on [-2^n, 0). */
  lemma AsrSignRange(x: int, n: nat)
    ensures Asr(x, n) == 0 <==> 0 <= x < Pow2(n)
    ensures Asr(x, n) == -1 <==> -Pow2(n) <= x < 0
  {
    var p := Pow2(n);
    var q := x / p;
    assert x == p * q + x % p;
    if q >= 1 {
      assert p * q >= p;
    } else if q <= -2 {
      assert p * q <= -2 * p;
    }
  }

  /** Values already in [0, 2^n) pass through unchanged. */
  lemma WconvKeepsInRange(targetBits: nat, t: CType, v: int)
    requires targetBits == 8 || targetBits == 16 || targetBits == 32
    requires ValidCType(t) && Representable(t, v)
    requires 0 <= v < Pow2(targetBits)
    ensures Wconv(targetBits, t, v) == Ok(v)
  {
    ModOfShift(v, targetBits);
  }

  /** Negative values down to -2^n are accepted and wrap to v + 2^n. */
  lemma WconvWrapsNegative(targetBits: nat, t: CType, v: int)
    requires targetBits == 8 || targetBits == 16 || targetBits == 32
    requires ValidCType(t) && t.signed && Representable(t, v)
    requires -Pow2(targetBits) <= v < 0
    ensures Wconv(targetBits, t, v) == Ok(v + Pow2(targetBits))
  {
    ModOfShift(v, targetBits);
  }

  /** Reduction modulo 2^n of a value whose shift is 0 or -1. */
  lemma ModOfShift(v: int, n: nat)
    ensures 0 <= v < Pow2(n) ==> v % Pow2(n) == v
    ensures -Pow2(n) <= v < 0 ==> v % Pow2(n) == v + Pow2(n)
  {
    var p := Pow2(n);
    AsrSignRange(v, n);
    assert v == p * (v / p) + v % p;
  }

  /**
   * For example -1 written with `w16` becomes 0xFFFF, 256 in an `int` is
   * refused by `w8`, and the largest `uint64_t`, which reads as -1 once cast
   * to `int64_t`, is accepted by `w8` as 0xFF.
   */
  lemma WconvExamples()
    ensures W16(Int32Type, -1) == Ok(0xFFFF)
    ensures W8(Int32Type, 256).Err?
    ensures W8(Int32Type, -256) == Ok(0)
    ensures W32(Int32Type, -1) == Ok(0xFFFF_FFFF)
    ensures Representable(Int64Type, 0x1_0000_0000) && W32(Int64Type, 0x1_0000_0000).Err?
    ensures Representable(Uint64Type, 0xFFFF_FFFF_FFFF_FFFF) && W8(Uint64Type, 0xFFFF_FFFF_FFFF_FFFF) == Ok(0xFF)
  {
    Pow2Widths();
    WconvWrapsNegative(16, Int32Type, -1);
    WconvWrapsNegative(8, Int32Type, -256);
  }
}
