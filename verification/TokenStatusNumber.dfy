/** The Token Status List layout read as one number (draft-ietf-oauth-status-list section 4.1). */
module TokenStatusNumbers {
  import opened StatusBytes
  import opened TokenStatusLists

  /** Digits of `bits` bits each, digit 0 least significant. */
  function Weighted(digits: seq<nat>, bits: nat): nat {
    if digits == [] then 0
    else
      var last := |digits| - 1;
      Weighted(digits[..last], bits) + digits[last] * Pow2(bits * last)
  }

  function Values(s: seq<bv8>): (v: seq<nat>)
    ensures |v| == |s| && forall i :: 0 <= i < |s| ==> v[i] == ByteValue(s[i])
  {
    seq(|s|, i requires 0 <= i < |s| => ByteValue(s[i]))
  }

  ghost function EntryNumber(data: seq<bv8>, bits: nat, i: nat): nat
    requires Width(bits) && InByte(bits, i, |data|)
  {
    ByteValue(Entry(data, bits, i))
  }

  /** The entries of a byte, at each width, in terms of the byte's bits. */
  lemma OneBitEntry(data: seq<bv8>, m: nat, k: nat)
    requires m < |data| && k < 8
    ensures InByte(1, 8 * m + k, |data|)
    ensures EntryNumber(data, 1, 8 * m + k) == Bit(data[m], Shift(k))
  {
  }

  lemma TwoBitEntry(data: seq<bv8>, m: nat, k: nat)
    requires m < |data| && k < 4
    ensures InByte(2, 4 * m + k, |data|)
    ensures EntryNumber(data, 2, 4 * m + k) == Bit(data[m], Shift(2 * k)) + 2 * Bit(data[m], Shift(2 * k + 1))
  {
  }

  lemma FourBitEntry(data: seq<bv8>, m: nat, k: nat)
    requires m < |data| && k < 2
    ensures InByte(4, 2 * m + k, |data|)
    ensures EntryNumber(data, 4, 2 * m + k)
         == Bit(data[m], Shift(4 * k)) + 2 * Bit(data[m], Shift(4 * k + 1))
          + 4 * Bit(data[m], Shift(4 * k + 2)) + 8 * Bit(data[m], Shift(4 * k + 3))
  {
  }

  lemma EightBitEntry(data: seq<bv8>, m: nat)
    requires m < |data|
    ensures InByte(8, m, |data|) && EntryNumber(data, 8, m) == ByteValue(data[m])
  {
  }

  /** Every byte is the sum of its entries. */
  ghost predicate Groups(entries: seq<nat>, bytes: seq<nat>, bits: nat) {
    && Width(bits) && |entries| == PerByte(bits) * |bytes|
    && forall m :: 0 <= m < |bytes| ==> bytes[m] == GroupValue(entries, bits, m)
  }

  ghost function GroupValue(e: seq<nat>, bits: nat, m: nat): nat
    requires Width(bits) && PerByte(bits) * (m + 1) <= |e|
  {
    if bits == 8 then e[m]
    else if bits == 4 then e[2 * m] + 16 * e[2 * m + 1]
    else if bits == 2 then e[4 * m] + 4 * e[4 * m + 1] + 16 * e[4 * m + 2] + 64 * e[4 * m + 3]
    else
      e[8 * m] + 2 * e[8 * m + 1] + 4 * e[8 * m + 2] + 8 * e[8 * m + 3]
      + 16 * e[8 * m + 4] + 32 * e[8 * m + 5] + 64 * e[8 * m + 6] + 128 * e[8 * m + 7]
  }

  /** Every entry the bytes hold, spare ones included. */
  ghost function EntriesOf(data: seq<bv8>, bits: nat): (e: seq<nat>)
    requires Width(bits)
    ensures |e| == PerByte(bits) * |data|
    ensures forall i :: 0 <= i < |e| ==> InByte(bits, i, |data|) && e[i] == EntryNumber(data, bits, i)
  {
    seq(PerByte(bits) * |data|, i requires 0 <= i < PerByte(bits) * |data| =>
      EntryInByte(bits, i, |data|); EntryNumber(data, bits, i))
  }

  lemma EntriesOfByte(data: seq<bv8>, bits: nat, m: nat)
    requires Width(bits) && m < |data|
    ensures ByteValue(data[m]) == GroupValue(EntriesOf(data, bits), bits, m)
  {
    hide EntriesOf, GroupValue, ByteValue;
    if bits == 8 {
      EightBitByte(data, m);
    } else if bits == 4 {
      FourBitByte(data, m);
    } else if bits == 2 {
      TwoBitByte(data, m);
    } else {
      OneBitByte(data, m);
    }
  }

  lemma EightBitByte(data: seq<bv8>, m: nat)
    requires m < |data|
    ensures ByteValue(data[m]) == GroupValue(EntriesOf(data, 8), 8, m)
  {
    hide Bit, EntryNumber, Entry, InByte, ByteOf, EntriesOf, ByteValue;
    EightBitEntry(data, m);
  }

  lemma FourBitByte(data: seq<bv8>, m: nat)
    requires m < |data|
    ensures ByteValue(data[m]) == GroupValue(EntriesOf(data, 4), 4, m)
  {
    hide Bit, EntryNumber, Entry, InByte, ByteOf, EntriesOf;
    FourBitEntry(data, m, 0); FourBitEntry(data, m, 1);
  }

  lemma OneBitByte(data: seq<bv8>, m: nat)
    requires m < |data|
    ensures ByteValue(data[m]) == GroupValue(EntriesOf(data, 1), 1, m)
  {
    hide Bit, EntryNumber, Width, Entry, InByte, ByteOf, EntriesOf;
    OneBitEntry(data, m, 0); OneBitEntry(data, m, 1); OneBitEntry(data, m, 2); OneBitEntry(data, m, 3);
    OneBitEntry(data, m, 4); OneBitEntry(data, m, 5); OneBitEntry(data, m, 6); OneBitEntry(data, m, 7);
  }

  lemma TwoBitByte(data: seq<bv8>, m: nat)
    requires m < |data|
    ensures ByteValue(data[m]) == GroupValue(EntriesOf(data, 2), 2, m)
  {
    hide Bit, EntryNumber, Width, Entry, InByte, ByteOf, EntriesOf;
    TwoBitEntry(data, m, 0); TwoBitEntry(data, m, 1); TwoBitEntry(data, m, 2); TwoBitEntry(data, m, 3);
  }

  lemma EntriesGroup(data: seq<bv8>, bits: nat)
    requires Width(bits)
    ensures Groups(EntriesOf(data, bits), Values(data), bits)
  {
    hide ByteValue, GroupValue, EntryNumber, InByte;
    var e, bytes := EntriesOf(data, bits), Values(data);
    forall m | 0 <= m < |bytes|
      ensures PerByte(bits) * (m + 1) <= |e| && bytes[m] == GroupValue(e, bits, m)
    {
      EntriesOfByte(data, bits, m);
    }
  }

  /** Digit `8m/bits + k` weighs `2^(bits * k)` within byte `m`. */
  lemma NextDigit(e: seq<nat>, bits: nat, m: nat, n: nat, w: nat)
    requires 0 <= n < |e| && bits * n == w + 8 * m
    ensures Weighted(e[..n + 1], bits) == Weighted(e[..n], bits) + e[n] * Pow2(w) * Pow2(8 * m)
  {
    assert e[..n + 1][..n] == e[..n];
    Pow2Add(w, 8 * m);
    MulAssoc(e[n], Pow2(w), Pow2(8 * m));
  }

  lemma MulAssoc(a: nat, b: nat, c: nat)
    ensures a * (b * c) == a * b * c
  {
  }

  lemma SmallPowers()
    ensures Pow2(0) == 1 && Pow2(1) == 2 && Pow2(2) == 4 && Pow2(3) == 8
    ensures Pow2(4) == 16 && Pow2(5) == 32 && Pow2(6) == 64 && Pow2(7) == 128
  {
  }

  /** A byte's fields, each weighed in place, add up to the byte weighed in place. */
  lemma Spread(a: nat, b: nat, c: nat, d: nat, w: nat, x: nat, y: nat, p: nat)
    ensures (a + w * b + x * c + y * d) * p == a * 1 * p + b * w * p + c * x * p + d * y * p
  {
  }

  lemma NextGroup1(e: seq<nat>, m: nat)
    requires 8 * m + 8 <= |e|
    ensures Weighted(e[..8 * m + 8], 1) == Weighted(e[..8 * m], 1) + GroupValue(e, 1, m) * Pow2(8 * m)
  {
    hide Weighted, Pow2;
    SmallPowers();
    var p := Pow2(8 * m);
    NextDigit(e, 1, m, 8 * m, 0); NextDigit(e, 1, m, 8 * m + 1, 1);
    NextDigit(e, 1, m, 8 * m + 2, 2); NextDigit(e, 1, m, 8 * m + 3, 3);
    NextDigit(e, 1, m, 8 * m + 4, 4); NextDigit(e, 1, m, 8 * m + 5, 5);
    NextDigit(e, 1, m, 8 * m + 6, 6); NextDigit(e, 1, m, 8 * m + 7, 7);
    Spread(e[8 * m], e[8 * m + 1], e[8 * m + 2], e[8 * m + 3], 2, 4, 8, p);
    Spread(0, e[8 * m + 4], e[8 * m + 5], e[8 * m + 6], 16, 32, 64, p);
    var low := e[8 * m] + 2 * e[8 * m + 1] + 4 * e[8 * m + 2] + 8 * e[8 * m + 3];
    var mid := 16 * e[8 * m + 4] + 32 * e[8 * m + 5] + 64 * e[8 * m + 6];
    Spread(low, mid, e[8 * m + 7], 0, 1, 128, 0, p);
  }

  lemma NextGroup2(e: seq<nat>, m: nat)
    requires 4 * m + 4 <= |e|
    ensures Weighted(e[..4 * m + 4], 2) == Weighted(e[..4 * m], 2) + GroupValue(e, 2, m) * Pow2(8 * m)
  {
    hide Weighted, Pow2;
    SmallPowers();
    NextDigit(e, 2, m, 4 * m, 0); NextDigit(e, 2, m, 4 * m + 1, 2);
    NextDigit(e, 2, m, 4 * m + 2, 4); NextDigit(e, 2, m, 4 * m + 3, 6);
    Spread(e[4 * m], e[4 * m + 1], e[4 * m + 2], e[4 * m + 3], 4, 16, 64, Pow2(8 * m));
  }

  lemma NextGroup4(e: seq<nat>, m: nat)
    requires 2 * m + 2 <= |e|
    ensures Weighted(e[..2 * m + 2], 4) == Weighted(e[..2 * m], 4) + GroupValue(e, 4, m) * Pow2(8 * m)
  {
    hide Weighted, Pow2;
    SmallPowers();
    NextDigit(e, 4, m, 2 * m, 0); NextDigit(e, 4, m, 2 * m + 1, 4);
    Spread(e[2 * m], e[2 * m + 1], 0, 0, 16, 0, 0, Pow2(8 * m));
  }

  lemma NextGroup8(e: seq<nat>, m: nat)
    requires m + 1 <= |e|
    ensures Weighted(e[..m + 1], 8) == Weighted(e[..m], 8) + GroupValue(e, 8, m) * Pow2(8 * m)
  {
    hide Weighted, Pow2;
    SmallPowers();
    NextDigit(e, 8, m, m, 0);
  }

  lemma NextGroup(e: seq<nat>, bits: nat, m: nat)
    requires Width(bits) && PerByte(bits) * (m + 1) <= |e|
    ensures Weighted(e[..PerByte(bits) * (m + 1)], bits)
         == Weighted(e[..PerByte(bits) * m], bits) + GroupValue(e, bits, m) * Pow2(8 * m)
  {
    hide Weighted, Pow2, GroupValue;
    if bits == 8 {
      NextGroup8(e, m);
    } else if bits == 4 {
      NextGroup4(e, m);
    } else if bits == 2 {
      NextGroup2(e, m);
    } else {
      NextGroup1(e, m);
    }
  }

  lemma {:induction false} WeightedGroups(e: seq<nat>, bytes: seq<nat>, bits: nat)
    requires Groups(e, bytes, bits)
    ensures Weighted(e, bits) == Weighted(bytes, 8)
  {
    if bytes != [] {
      var m := |bytes| - 1;
      assert PerByte(bits) * (m + 1) == PerByte(bits) * m + PerByte(bits) == |e|;
      var shorter := e[..PerByte(bits) * m];
      assert Groups(shorter, bytes[..m], bits) by {
        forall i | 0 <= i < m ensures PerByte(bits) * (i + 1) <= |shorter|
        && bytes[..m][i] == GroupValue(shorter, bits, i) {
          assert bytes[i] == GroupValue(e, bits, i);
          assert PerByte(bits) * (i + 1) <= PerByte(bits) * m;
        }
      }
      WeightedGroups(shorter, bytes[..m], bits);
      NextGroup(e, bits, m);
      assert e[..|e|] == e;
    }
  }

  lemma {:induction false} TrailingZeros(digits: seq<nat>, bits: nat, n: nat)
    requires n <= |digits| && forall i :: n <= i < |digits| ==> digits[i] == 0
    ensures Weighted(digits, bits) == Weighted(digits[..n], bits)
  {
    if n < |digits| {
      var shorter := digits[..|digits| - 1];
      TrailingZeros(shorter, bits, n);
      assert shorter[..n] == digits[..n];
    } else {
      assert digits[..n] == digits;
    }
  }

  /** The number the bytes spell is the number the statuses spell, for every width and capacity. */
  lemma LayoutIsOneNumber(data: seq<bv8>, bits: nat, capacity: nat)
    requires Layout(data, bits, capacity)
    ensures Weighted(Values(data), 8) == Weighted(Values(StatusesOf(data, bits, capacity)), bits)
  {
    hide Weighted, Groups, EntryNumber, Entry, ByteValue, InByte, EntriesOf;
    var e := EntriesOf(data, bits);
    EntriesGroup(data, bits);
    WeightedGroups(e, Values(data), bits);
    SpareEntries(data, bits, capacity);
    TrailingZeros(e, bits, capacity);
  }

  /** The entries are the statuses, and zeros after them. */
  lemma SpareEntries(data: seq<bv8>, bits: nat, capacity: nat)
    requires Layout(data, bits, capacity)
    ensures var e := EntriesOf(data, bits);
            && capacity <= |e| && (forall i :: capacity <= i < |e| ==> e[i] == 0)
            && e[..capacity] == Values(StatusesOf(data, bits, capacity))
  {
    hide Entry, InByte;
    CapacityFits(bits, capacity);
  }
}
