/** The W3C StatusList2021 bitstring: one bit per entry, most significant first. */
module StatusLists2021 {
  import opened Wrappers
  import opened StatusBytes

  datatype StatusListError = IndexOutOfBounds(index: nat, size: nat)

  // ---- Layout -----------------------------------------------------------

  /** `1 << (7 - index % 8)`: the bit of its byte that `index` names. */
  function BitMask(index: nat): bv8 {
    1 << Shift(7 - index % 8)
  }

  predicate Flag(bits: seq<bv8>, index: nat)
    requires index / 8 < |bits|
  {
    bits[index / 8] & BitMask(index) != 0
  }

  /** Exactly the bytes `size` bits need, with the spare bits zero. */
  ghost predicate Layout(bits: seq<bv8>, size: nat) {
    && |bits| == DivCeil(size, 8)
    && forall i: nat :: size <= i < 8 * |bits| ==> !Flag(bits, i)
  }

  ghost function FlagsOf(bits: seq<bv8>, size: nat): (f: seq<bool>)
    requires size <= 8 * |bits|
    ensures |f| == size
    ensures forall i :: 0 <= i < size ==> f[i] == Flag(bits, i)
  {
    seq(size, i requires 0 <= i < size => Flag(bits, i))
  }

  function Written(b: bv8, index: nat, value: bool): bv8 {
    if value then b | BitMask(index) else b & !BitMask(index)
  }

  lemma WrittenFlag(b: bv8, index: nat, value: bool, j: nat)
    requires index / 8 == j / 8
    ensures Written(b, index, value) & BitMask(j) != 0 <==> if j == index then value else b & BitMask(j) != 0
  {
  }

  lemma WriteOneFlag(bits: seq<bv8>, index: nat, value: bool, j: nat)
    requires index / 8 < |bits| && j / 8 < |bits|
    ensures Flag(bits[index / 8 := Written(bits[index / 8], index, value)],
                 j) == if j == index then value else Flag(bits, j)
  {
    if j / 8 == index / 8 {
      WrittenFlag(bits[index / 8], index, value, j);
    }
  }

  lemma WriteFlag(bits: seq<bv8>, size: nat, index: nat, value: bool)
    requires Layout(bits, size) && index < size
    ensures var after := bits[index / 8 := Written(bits[index / 8], index, value)];
            Layout(after, size) && FlagsOf(after, size) == FlagsOf(bits, size)[index := value]
  {
    hide Written, Flag;
    var after := bits[index / 8 := Written(bits[index / 8], index, value)];
    forall j: nat | j < 8 * |bits|
      ensures Flag(after, j) == if j == index then value else Flag(bits, j)
    {
      WriteOneFlag(bits, index, value, j);
    }
  }

  // ---- The class --------------------------------------------------------

  class StatusList {
    const bits: array<bv8>
    const size: nat

    ghost predicate Valid()
      reads bits
    {
      Layout(bits[..], size)
    }

    ghost function Flags(): (f: seq<bool>)
      requires Valid()
      reads bits
      ensures |f| == size
    {
      FlagsOf(bits[..], size)
    }

    constructor New(size: nat)
      ensures Valid() && fresh(bits)
      ensures this.size == size && Flags() == seq(size, _ => false)
    {
      this.size := size;
      bits := new bv8[DivCeil(size, 8)](_ => 0);
      new;
      forall i: nat | i < 8 * bits.Length ensures !Flag(bits[..], i) {
        ZeroAnd(BitMask(i));
      }
    }

    method Get(index: nat) returns (r: Result<bool, StatusListError>)
      requires Valid()
      ensures r == if index < size then Ok(Flags()[index]) else Err(IndexOutOfBounds(index, size))
    {
      if index >= size {
        return Err(IndexOutOfBounds(index, size));
      }
      r := Ok(bits[index / 8] & (1 << Shift(7 - index % 8)) != 0);
    }

    method Set(index: nat, value: bool) returns (r: Result<(), StatusListError>)
      requires Valid()
      modifies bits
      ensures Valid()
      ensures r == if index < size then Ok(()) else Err(IndexOutOfBounds(index, size))
      ensures Flags() == if index < size then old(Flags())[index := value] else old(Flags())
      ensures r.Err? ==> bits[..] == old(bits[..])
    {
      if index >= size {
        return Err(IndexOutOfBounds(index, size));
      }
      WriteFlag(bits[..], size, index, value);
      var byteIndex := index / 8;
      var mask := 1 << Shift(7 - index % 8);
      if value {
        OrAssign(bits, byteIndex, mask);
      } else {
        AndAssign(bits, byteIndex, !mask);
      }
      r := Ok(());
    }

    /** The first index whose bit is clear. */
    method AllocateIndex() returns (r: Option<nat>)
      requires Valid()
      ensures r.None? ==> forall i :: 0 <= i < size ==> Flags()[i]
      ensures r.Some? ==> r.value < size && !Flags()[r.value] && forall i :: 0 <= i < r.value ==> Flags()[i]
    {
      for i := 0 to size
        invariant forall j :: 0 <= j < i ==> Flags()[j]
      {
        var flag := Get(i);
        if flag == Ok(false) {
          return Some(i);
        }
      }
      r := None;
    }
  }

  lemma ZeroAnd(m: bv8)
    ensures 0 & m == 0
  {
  }

  // ---- The bitstring as a number ------------------------------------------

  /** The byte array as a number, byte 0 most significant. */
  function BigEndian(bits: seq<bv8>): nat {
    if bits == [] then 0
    else 256 * BigEndian(bits[..|bits| - 1]) + ByteValue(bits[|bits| - 1])
  }

  /** The flags as a binary numeral, flag 0 first. */
  function Numeral(flags: seq<bool>): nat {
    if flags == [] then 0
    else 2 * Numeral(flags[..|flags| - 1]) + Digit(flags[|flags| - 1])
  }

  lemma FlagIsBit(bits: seq<bv8>, m: nat, k: nat)
    requires m < |bits| && k < 8
    ensures Flag(bits, 8 * m + k) <==> Bit(bits[m], Shift(7 - k)) == 1
  {
  }

  lemma NumeralAppend(flags: seq<bool>, n: nat)
    requires n < |flags|
    ensures Numeral(flags[..n + 1]) == 2 * Numeral(flags[..n]) + Digit(flags[n])
  {
    assert flags[..n + 1][..n] == flags[..n];
  }

  function Digit(flag: bool): nat {
    if flag then 1 else 0
  }

  /** Eight flags as a number, the first most significant. */
  function Octet(flags: seq<bool>, n: nat): nat
    requires n + 8 <= |flags|
  {
    128 * Digit(flags[n]) + 64 * Digit(flags[n + 1]) + 32 * Digit(flags[n + 2]) + 16 * Digit(flags[n + 3])
    + 8 * Digit(flags[n + 4]) + 4 * Digit(flags[n + 5]) + 2 * Digit(flags[n + 6]) + Digit(flags[n + 7])
  }

  lemma NumeralOctet(flags: seq<bool>, n: nat)
    requires n + 8 <= |flags|
    ensures Numeral(flags[..n + 8]) == 256 * Numeral(flags[..n]) + Octet(flags, n)
  {
    hide Numeral;
    NumeralAppend(flags, n); NumeralAppend(flags, n + 1); NumeralAppend(flags, n + 2); NumeralAppend(flags, n + 3);
    NumeralAppend(flags, n + 4); NumeralAppend(flags, n + 5); NumeralAppend(flags, n + 6); NumeralAppend(flags, n + 7);
  }

  lemma FlagDigit(bits: seq<bv8>, m: nat, k: nat)
    requires m < |bits| && k < 8
    ensures Digit(FlagsOf(bits, 8 * |bits|)[8 * m + k]) == Bit(bits[m], Shift(7 - k))
  {
    FlagIsBit(bits, m, k);
  }

  lemma OctetIsByte(bits: seq<bv8>, m: nat)
    requires m < |bits|
    ensures Octet(FlagsOf(bits, 8 * |bits|), 8 * m) == ByteValue(bits[m])
  {
    hide Flag, Bit, Digit, FlagsOf;
    FlagDigit(bits, m, 0); FlagDigit(bits, m, 1); FlagDigit(bits, m, 2); FlagDigit(bits, m, 3);
    FlagDigit(bits, m, 4); FlagDigit(bits, m, 5); FlagDigit(bits, m, 6); FlagDigit(bits, m, 7);
  }

  /** The flags of the bytes before the last are the flags before the last eight. */
  lemma EarlierFlags(bits: seq<bv8>, m: nat)
    requires |bits| == m + 1
    ensures FlagsOf(bits, 8 * m + 8)[..8 * m] == FlagsOf(bits[..m], 8 * m)
  {
    hide Flag;
    forall i | 0 <= i < 8 * m ensures FlagsOf(bits, 8 * m + 8)[i] == FlagsOf(bits[..m], 8 * m)[i] {
      SameFlag(bits, m, i);
    }
  }

  lemma SameFlag(bits: seq<bv8>, m: nat, i: nat)
    requires m <= |bits| && i < 8 * m
    ensures Flag(bits[..m], i) == Flag(bits, i)
  {
  }

  lemma {:induction false} AllFlags(bits: seq<bv8>)
    ensures Numeral(FlagsOf(bits, 8 * |bits|)) == BigEndian(bits)
  {
    hide ByteValue, Octet, FlagsOf, Numeral;
    if bits == [] {
      NoFlags();
    } else {
      var m := |bits| - 1;
      var flags := FlagsOf(bits, 8 * m + 8);
      AllFlags(bits[..m]);
      EarlierFlags(bits, m);
      WholeFlags(bits, 8 * m + 8);
      NumeralOctet(flags, 8 * m);
      OctetIsByte(bits, m);
    }
  }

  lemma NoFlags()
    ensures Numeral(FlagsOf([], 0)) == 0
  {
  }

  lemma WholeFlags(bits: seq<bv8>, n: nat)
    requires n <= 8 * |bits|
    ensures |FlagsOf(bits, n)| == n && FlagsOf(bits, n)[..n] == FlagsOf(bits, n)
  {
    hide Flag;
  }

  lemma {:induction false} TrailingClear(flags: seq<bool>, n: nat)
    requires n <= |flags| && forall i :: n <= i < |flags| ==> !flags[i]
    ensures Numeral(flags) == Numeral(flags[..n]) * Pow2(|flags| - n)
  {
    if n == |flags| {
      assert flags[..n] == flags;
    } else {
      var shorter := flags[..|flags| - 1];
      TrailingClear(shorter, n);
      assert shorter[..n] == flags[..n];
      Double(Numeral(flags[..n]), Pow2(|shorter| - n));
    }
  }

  lemma Double(a: nat, b: nat)
    ensures 2 * (a * b) == a * (2 * b)
  {
  }

  /** The number the bytes spell is the numeral the flags spell, shifted past the spare bits. */
  lemma LayoutIsOneNumber(bits: seq<bv8>, size: nat)
    requires Layout(bits, size)
    ensures size <= 8 * |bits|
    ensures BigEndian(bits) == Numeral(FlagsOf(bits, size)) * Pow2(8 * |bits| - size)
  {
    hide Flag, BigEndian, Numeral, Pow2;
    AllFlags(bits);
    var flags := FlagsOf(bits, 8 * |bits|);
    TrailingClear(flags, size);
    assert flags[..size] == FlagsOf(bits, size);
  }
}
