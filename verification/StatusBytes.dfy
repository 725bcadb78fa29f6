/** Bit-level facts about one byte, and powers of two. */
module StatusBytes {

  /** Bit `k` of a byte, as a number; bit 0 is the least significant. */
  function Bit(b: bv8, k: bv4): nat
    requires k < 8
  {
    if (b >> k) & 1 == 1 then 1 else 0
  }

  /** The number a byte denotes. */
  function ByteValue(b: bv8): nat {
    Bit(b, 0) + 2 * Bit(b, 1) + 4 * Bit(b, 2) + 8 * Bit(b, 3)
    + 16 * Bit(b, 4) + 32 * Bit(b, 5) + 64 * Bit(b, 6) + 128 * Bit(b, 7)
  }

  /** Entry widths the Token Status List format allows. */
  predicate Width(bits: nat) {
    bits == 1 || bits == 2 || bits == 4 || bits == 8
  }

  /** A small number as a shift amount. */
  function Shift(k: nat): bv4
    requires k <= 8
  {
    match k
    case 0 => 0 case 1 => 1 case 2 => 2 case 3 => 3 case 4 => 4
    case 5 => 5 case 6 => 6 case 7 => 7 case _ => 8
  }

  predicate ShiftWidth(bits: bv4) {
    bits == 1 || bits == 2 || bits == 4 || bits == 8
  }

  /** `bits` ones, computed in 16 bits so that a width of 8 does not overflow. */
  function Mask(bits: bv4): bv8
    requires ShiftWidth(bits)
  {
    (((1 as bv16) << bits) - 1) as bv8
  }

  function Field(b: bv8, off: bv4, bits: bv4): bv8
    requires ShiftWidth(bits) && off < 8
  {
    (b >> off) & Mask(bits)
  }

  /** Clearing a field and or-ing a value in changes that field and no other. */
  lemma ReplaceField(b: bv8, off: bv4, j: bv4, bits: bv4, v: bv8)
    requires ShiftWidth(bits) && off <= 8 - bits && j <= 8 - bits
    requires off & (bits - 1) == 0 && j & (bits - 1) == 0 && v <= Mask(bits)
    ensures Field((b & !(Mask(bits) << off)) | (v << off), j, bits)
         == if off == j then v else Field(b, j, bits)
  {
  }

  function Pow2(n: nat): (r: nat)
    ensures r > 0
  {
    if n == 0 then 1 else 2 * Pow2(n - 1)
  }

  lemma {:induction false} Pow2Add(m: nat, n: nat)
    ensures Pow2(m + n) == Pow2(m) * Pow2(n)
  {
    if n > 0 {
      Pow2Add(m, n - 1);
      assert m + n - 1 == m + (n - 1);
    }
  }

  function DivCeil(n: nat, d: nat): nat
    requires d > 0
  {
    (n + d - 1) / d
  }

  /** `a[i] &= m`. */
  method AndAssign(a: array<bv8>, i: nat, m: bv8)
    requires i < a.Length
    modifies a
    ensures a[..] == old(a[..])[i := old(a[i]) & m]
  {
    a[i] := a[i] & m;
  }

  /** `a[i] |= m`. */
  method OrAssign(a: array<bv8>, i: nat, m: bv8)
    requires i < a.Length
    modifies a
    ensures a[..] == old(a[..])[i := old(a[i]) | m]
  {
    a[i] := a[i] | m;
  }
}
