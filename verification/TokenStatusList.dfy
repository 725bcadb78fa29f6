/** The IETF Token Status List: `bits` per entry, least significant first. */
module TokenStatusLists {
  import opened Wrappers
  import opened StatusBytes

  datatype TokenStatusListError =
    | InvalidBitsPerStatus(bits: nat)
    | IndexOutOfBounds(index: nat)
    | InvalidStatus(value: bv8)

  datatype TokenStatus = Valid | Invalid | Suspended
  {
    function ToByte(): bv8 {
      match this case Valid => 0 case Invalid => 1 case Suspended => 2
    }

    static function FromByte(value: bv8): Option<TokenStatus> {
      if value == 0 then Some(Valid)
      else if value == 1 then Some(Invalid)
      else if value == 2 then Some(Suspended)
      else None
    }
  }

  // ---- Layout -----------------------------------------------------------

  function PerByte(bits: nat): (n: nat)
    requires Width(bits)
    ensures n > 0 && n * bits == 8 && n == 8 / bits
  {
    if bits == 1 then 8 else if bits == 2 then 4 else if bits == 4 then 2 else 1
  }

  /** `index / (8 / bits)`, one literal divisor per width. */
  function ByteOf(bits: nat, index: nat): (at: nat)
    requires Width(bits)
  {
    if bits == 1 then index / 8 else if bits == 2 then index / 4
    else if bits == 4 then index / 2 else index
  }

  /** `index % (8 / bits) * bits`, as a shift amount. */
  function Offset(bits: nat, index: nat): (off: bv4)
    requires Width(bits)
    ensures ShiftWidth(Shift(bits)) && off <= 8 - Shift(bits) && off & (Shift(bits) - 1) == 0
  {
    if bits == 1 then Shift(index % 8) else if bits == 2 then Shift(index % 4 * 2)
    else if bits == 4 then Shift(index % 2 * 4) else 0
  }

  lemma SlotIsQuotient(bits: nat, index: nat)
    requires Width(bits)
    ensures ByteOf(bits, index) == index / (8 / bits)
    ensures index % (8 / bits) * bits < 8 && Offset(bits, index) == Shift(index % (8 / bits) * bits)
  {
  }

  /** Entry `index` of a byte array, in or beyond the capacity. */
  function Entry(data: seq<bv8>, bits: nat, index: nat): bv8
    requires Width(bits) && ByteOf(bits, index) < |data|
  {
    Field(data[ByteOf(bits, index)], Offset(bits, index), Shift(bits))
  }

  /** Exactly the bytes `capacity` entries need, with the spare bits zero. */
  ghost predicate Layout(data: seq<bv8>, bits: nat, capacity: nat) {
    && Width(bits)
    && |data| == DivCeil(capacity, PerByte(bits))
    && forall i: nat :: capacity <= i < PerByte(bits) * |data| ==>
         InByte(bits, i, |data|) && Entry(data, bits, i) == 0
  }

  /** Which byte an entry is in; stated apart so that division stays out of sight. */
  ghost predicate InByte(bits: nat, index: nat, length: nat)
    requires Width(bits)
  {
    ByteOf(bits, index) < length
  }

  lemma EntryInByte(bits: nat, index: nat, length: nat)
    requires Width(bits) && index < PerByte(bits) * length
    ensures InByte(bits, index, length)
  {
  }

  lemma CapacityFits(bits: nat, capacity: nat)
    requires Width(bits)
    ensures capacity <= PerByte(bits) * DivCeil(capacity, PerByte(bits))
  {
  }

  /** The status values of a list, which is all a reader of it sees. */
  ghost function StatusesOf(data: seq<bv8>, bits: nat, capacity: nat): (s: seq<bv8>)
    requires Layout(data, bits, capacity)
    ensures |s| == capacity
    ensures forall i :: 0 <= i < capacity ==> InByte(bits, i, |data|) && s[i] == Entry(data, bits, i)
  {
    CapacityFits(bits, capacity);
    seq(capacity, i requires 0 <= i < capacity => EntryInByte(bits, i, |data|); Entry(data, bits, i))
  }

  /** Two entries have the same offset in the same byte only if they are the same. */
  lemma SameSlot(bits: nat, i: nat, j: nat)
    requires Width(bits) && ByteOf(bits, i) == ByteOf(bits, j)
    ensures Offset(bits, i) == Offset(bits, j) <==> i == j
  {
  }

  /** A byte with one field overwritten: clear it, then or the value in. */
  function Overwrite(b: bv8, bits: nat, index: nat, v: bv8): bv8
    requires Width(bits)
  {
    (b & !(Mask(Shift(bits)) << Offset(bits, index))) | (v << Offset(bits, index))
  }

  lemma OverwriteField(b: bv8, bits: nat, index: nat, v: bv8, j: nat)
    requires Width(bits) && ByteOf(bits, index) == ByteOf(bits, j)
    requires v <= Mask(Shift(bits))
    ensures Field(Overwrite(b, bits, index, v), Offset(bits, j), Shift(bits))
         == if j == index then v else Field(b, Offset(bits, j), Shift(bits))
  {
    SameSlot(bits, index, j);
    ReplaceField(b, Offset(bits, index), Offset(bits, j), Shift(bits), v);
  }

  /** What writing one byte does to every entry. */
  lemma WriteEntry(data: seq<bv8>, bits: nat, index: nat, v: bv8, j: nat)
    requires Width(bits) && InByte(bits, index, |data|) && InByte(bits, j, |data|)
    requires v <= Mask(Shift(bits))
    ensures var at := ByteOf(bits, index);
            Entry(data[at := Overwrite(data[at], bits, index, v)], bits, j)
            == if j == index then v else Entry(data, bits, j)
  {
    if ByteOf(bits, j) == ByteOf(bits, index) {
      OverwriteField(data[ByteOf(bits, index)], bits, index, v, j);
    }
  }

  /** Overwriting entry `index` keeps the layout and changes that status alone. */
  lemma WriteStatus(data: seq<bv8>, bits: nat, capacity: nat, index: nat, v: bv8)
    requires Layout(data, bits, capacity) && index < capacity && v <= Mask(Shift(bits))
    ensures InByte(bits, index, |data|)
    ensures var at := ByteOf(bits, index);
            var after := data[at := Overwrite(data[at], bits, index, v)];
            && Layout(after, bits, capacity)
            && StatusesOf(after, bits, capacity) == StatusesOf(data, bits, capacity)[index := v]
  {
    CapacityFits(bits, capacity);
    EntryInByte(bits, index, |data|);
    var at := ByteOf(bits, index);
    var after := data[at := Overwrite(data[at], bits, index, v)];
    forall j: nat | j < PerByte(bits) * |data|
      ensures InByte(bits, j, |data|)
      ensures Entry(after, bits, j) == if j == index then v else Entry(data, bits, j)
    {
      EntryInByte(bits, j, |data|);
      WriteEntry(data, bits, index, v, j);
    }
  }

  // ---- The class --------------------------------------------------------

  class TokenStatusList {
    const data: array<bv8>
    const bitsPerStatus: nat
    const capacity: nat

    ghost predicate Valid()
      reads data
    {
      Layout(data[..], bitsPerStatus, capacity)
    }

    ghost function Statuses(): (s: seq<bv8>)
      requires Valid()
      reads data
      ensures |s| == capacity
    {
      StatusesOf(data[..], bitsPerStatus, capacity)
    }

    constructor Zeroed(capacity: nat, bitsPerStatus: nat)
      requires Width(bitsPerStatus)
      ensures Valid() && fresh(data)
      ensures this.capacity == capacity && this.bitsPerStatus == bitsPerStatus
      ensures Statuses() == seq(capacity, _ => 0)
    {
      var byteLen := DivCeil(capacity, PerByte(bitsPerStatus));
      this.capacity, this.bitsPerStatus := capacity, bitsPerStatus;
      data := new bv8[byteLen](_ => 0);
      new;
      forall i: nat | i < PerByte(bitsPerStatus) * data.Length
        ensures InByte(bitsPerStatus, i, data.Length) && Entry(data[..], bitsPerStatus, i) == 0
      {
        EntryInByte(bitsPerStatus, i, data.Length);
      }
      CapacityFits(bitsPerStatus, capacity);
    }

    static method New(capacity: nat, bitsPerStatus: nat) returns (r: Result<TokenStatusList, TokenStatusListError>)
      ensures r.Ok? <==> Width(bitsPerStatus)
      ensures r.Err? ==> r.error == InvalidBitsPerStatus(bitsPerStatus)
      ensures r.Ok? ==>
                && fresh(r.value) && fresh(r.value.data) && r.value.Valid()
                && r.value.capacity == capacity && r.value.bitsPerStatus == bitsPerStatus
                && r.value.Statuses() == seq(capacity, _ => 0)
    {
      if bitsPerStatus !in [1, 2, 4, 8] {
        return Err(InvalidBitsPerStatus(bitsPerStatus));
      }
      var list := new TokenStatusList.Zeroed(capacity, bitsPerStatus);
      r := Ok(list);
    }

    method Get(index: nat) returns (r: Result<bv8, TokenStatusListError>)
      requires Valid()
      ensures r == if index < capacity then Ok(Statuses()[index]) else Err(IndexOutOfBounds(index))
    {
      if index >= capacity {
        return Err(IndexOutOfBounds(index));
      }
      assert InByte(bitsPerStatus, index, data.Length) by {
        CapacityFits(bitsPerStatus, capacity);
        EntryInByte(bitsPerStatus, index, data.Length);
      }
      var byteIndex := ByteOf(bitsPerStatus, index);
      var bitOffset := Offset(bitsPerStatus, index);
      r := Ok((data[byteIndex] >> bitOffset) & Mask(Shift(bitsPerStatus)));
    }

    method Set(index: nat, value: bv8) returns (r: Result<(), TokenStatusListError>)
      requires Valid()
      modifies data
      ensures Valid()
      ensures r == SetOutcome(capacity, bitsPerStatus, index, value)
      ensures Statuses() == if r.Ok? then old(Statuses())[index := value] else old(Statuses())
      ensures r.Err? ==> data[..] == old(data[..])
    {
      if index >= capacity {
        return Err(IndexOutOfBounds(index));
      }
      if value > Mask(Shift(bitsPerStatus)) {
        return Err(InvalidStatus(value));
      }
      WriteStatus(data[..], bitsPerStatus, capacity, index, value);
      WriteField(index, value);
      r := Ok(());
    }

    /** Clear the existing bits, then set the new ones (least significant first). */
    method WriteField(index: nat, value: bv8)
      requires Width(bitsPerStatus) && InByte(bitsPerStatus, index, data.Length)
      modifies data
      ensures var at := ByteOf(bitsPerStatus, index);
              data[..] == old(data[..])[at := Overwrite(old(data[at]), bitsPerStatus, index, value)]
    {
      var byteIndex := ByteOf(bitsPerStatus, index);
      var bitOffset := Offset(bitsPerStatus, index);
      var mask := Mask(Shift(bitsPerStatus));
      AndAssign(data, byteIndex, !(mask << bitOffset));
      OrAssign(data, byteIndex, value << bitOffset);
    }

    method GetStatus(index: nat) returns (r: Result<TokenStatus, TokenStatusListError>)
      requires Valid()
      ensures index >= capacity ==> r == Err(IndexOutOfBounds(index))
      ensures index < capacity && Statuses()[index] <= 2 ==>
                r.Ok? && r.value.ToByte() == Statuses()[index]
      ensures index < capacity && Statuses()[index] > 2 ==> r == Err(InvalidStatus(Statuses()[index]))
    {
      var value :- Get(index);
      match TokenStatus.FromByte(value)
      case Some(status) => r := Ok(status);
      case None => r := Err(InvalidStatus(value));
    }

    method SetStatus(index: nat, status: TokenStatus) returns (r: Result<(), TokenStatusListError>)
      requires Valid()
      modifies data
      ensures Valid()
      ensures r == SetOutcome(capacity, bitsPerStatus, index, status.ToByte())
      ensures Statuses() == if r.Ok? then old(Statuses())[index := status.ToByte()] else old(Statuses())
      ensures r.Err? ==> data[..] == old(data[..])
    {
      r := Set(index, status.ToByte());
    }
  }

  /** When `Set` succeeds, and how it fails: the index is checked first. */
  function SetOutcome(capacity: nat, bits: nat, index: nat, value: bv8): Result<(), TokenStatusListError>
    requires Width(bits)
  {
    if index >= capacity then Err(IndexOutOfBounds(index))
    else if value > Mask(Shift(bits)) then Err(InvalidStatus(value))
    else Ok(())
  }
}
