/** Machine integers of the engine: cells and stack entries are 64-bit `usize`,
    locations are `i64`. Dafny integers are unbounded, so the widths, the
    casts between them and Rust's truncating remainder are written out here. */
module Ints {

  const USIZE_MAX: int := 0xFFFF_FFFF_FFFF_FFFF
  const I64_MIN: int := -0x8000_0000_0000_0000
  const I64_MAX: int := 0x7FFF_FFFF_FFFF_FFFF
  const TWO_64: int := 0x1_0000_0000_0000_0000

  predicate IsUsize(v: int) { 0 <= v <= USIZE_MAX }

  predicate IsI64(v: int) { I64_MIN <= v <= I64_MAX }

  /** Every entry of a sequence of cells is a `usize`. */
  predicate AllUsize(s: seq<nat>) { forall i :: 0 <= i < |s| ==> IsUsize(s[i]) }

  /** `v as i64` for a `usize` v: the two's-complement reinterpretation. */
  function UsizeToI64(v: nat): (r: int)
    requires IsUsize(v)
    ensures IsI64(r)
    ensures r == v || r == v - TWO_64
    ensures 0 <= r <==> v <= I64_MAX
  {
    if v <= I64_MAX then v else v - TWO_64
  }

  /** `v as usize` for an `i64` v: negative values wrap to the top of the range. */
  function I64ToUsize(v: int): (r: nat)
    requires IsI64(v)
    ensures IsUsize(r)
    ensures r == v || r == v + TWO_64
    ensures r <= I64_MAX <==> 0 <= v
  {
    if 0 <= v then v else v + TWO_64
  }

  /** Casting a `usize` to `i64` and back gives the value it started from. */
  lemma CastRoundTrip(v: nat)
    requires IsUsize(v)
    ensures I64ToUsize(UsizeToI64(v)) == v
  {
  }

  /** Rust's `/` on `i64`: the quotient is truncated toward zero. */
  function Quot(a: int, b: int): int
    requires b > 0
  {
    if a >= 0 then a / b else -((-a) / b)
  }

  /** Rust's `%` on `i64`: what the truncated quotient leaves of the dividend,
      so the remainder takes the sign of the dividend. */
  function Rem(a: int, b: int): (r: int)
    requires b > 0
    ensures a == Quot(a, b) * b + r
    ensures a >= 0 ==> 0 <= r < b
    ensures a < 0 ==> -b < r <= 0
  {
    if a >= 0 then a % b else -((-a) % b)
  }

  lemma SmallMod(a: nat, d: nat)
    requires a < d
    ensures a % d == a
  {
  }

  /** A dividend smaller in size than the divisor is its own remainder. */
  lemma RemSmall(a: int, b: int)
    requires -b < a < b
    ensures Rem(a, b) == a
  {
    if a >= 0 { SmallMod(a, b); } else { SmallMod(-a, b); }
  }

  /** `v as u8`: the low eight bits. */
  function LowByte(v: nat): (r: nat)
    ensures r < 256
    ensures (v - r) % 256 == 0
  {
    v % 256
  }
}
