/**
 * Byte-level vocabulary shared by the picture-processing unit model: the C
 * widths `uint8_t` and `uint16_t` as subset types of `int`, and the bit test
 * `(b & (1 << k)) != 0` in arithmetic form.
 */
module Bytes {

  /** An unsigned 8-bit value (C `uint8_t`). */
  type byte = x: int | 0 <= x < 0x100

  /** An unsigned 16-bit value (C `uint16_t`). */
  type word = x: int | 0 <= x < 0x1_0000

  /** 2 to the power k, i.e. C `1 << k`. */
  function Pow2(k: nat): (p: nat)
    ensures p >= 1
  {
    if k == 0 then 1 else 2 * Pow2(k - 1)
  }

  /** b shifted right by k places: C `b >> k`. */
  function Shr(b: nat, k: nat): (v: nat)
    ensures v <= b
  {
    if k == 0 then b else Shr(b / 2, k - 1)
  }

  /** Bit k of b: 1 when `b & (1 << k)` is non-zero, else 0. */
  function Bit(b: nat, k: nat): (v: int)
    ensures v == 0 || v == 1
  {
    Shr(b, k) % 2
  }

  /** The eight bits of 0xFF are set and those of 0x00 are clear. */
  lemma FullAndEmptyBytes(k: nat)
    requires k < 8
    ensures Bit(0xFF, k) == 1 && Bit(0x00, k) == 0
  {
    if k == 0 {
    } else if k == 1 {
    } else if k == 2 {
    } else if k == 3 {
    } else if k == 4 {
    } else if k == 5 {
    } else if k == 6 {
    } else if k == 7 {
    }
  }

  /** Shifting right by k places is dividing by 2^k, for the shifts the
      register and tile logic uses. */
  lemma ShrAsDiv(b: nat)
    ensures Shr(b, 1) == b / 2 && Shr(b, 2) == b / 4 && Shr(b, 3) == b / 8
    ensures Shr(b, 4) == b / 16 && Shr(b, 5) == b / 32 && Shr(b, 6) == b / 64
    ensures Shr(b, 7) == b / 128
  {
    assert b / 2 / 2 == b / 4;
    assert b / 4 / 2 == b / 8;
    assert b / 8 / 2 == b / 16;
    assert b / 16 / 2 == b / 32;
    assert b / 32 / 2 == b / 64;
    assert b / 64 / 2 == b / 128;
    assert Shr(b, 7) == Shr(b / 2, 6) == Shr(b / 4, 5) == Shr(b / 8, 4) == Shr(b / 16, 3);
    assert Shr(b / 16, 3) == Shr(b / 32, 2) == Shr(b / 64, 1) == Shr(b / 128, 0);
  }
}
