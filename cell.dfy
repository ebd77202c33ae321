/** The packed state byte of one cell of the dense grid (grid.h):
    three flag bits at the top, a small payload below them. */
module CellCodec {

  type Byte = bv8

  /** Bit 7: the cell is alive. */
  const StateMask: Byte := 128
  const StateUnmask: Byte := 127
  /** Bit 6: the cell needs to be checked in the next generation. */
  const CheckMask: Byte := 64
  const CheckUnmask: Byte := 191
  /** Bit 5: the cell changed value in the last generation. */
  const ChangeMask: Byte := 32
  const ChangeUnmask: Byte := 223

  /** The bits below the three flags, where NEIGHBOURS keeps its count. */
  const PayloadMask: Byte := 31
  /** The three flag bits together. */
  const FlagMask: Byte := 224

  /** The decoded view of a cell byte. */
  datatype Cell = Cell(alive: bool, check: bool, changed: bool, payload: nat)

  predicate IsAlive(b: Byte) { b & StateMask != 0 }
  predicate NeedsCheck(b: Byte) { b & CheckMask != 0 }
  predicate HasChanged(b: Byte) { b & ChangeMask != 0 }

  function Payload(b: Byte): (n: nat)
    ensures n < ChangeMask as nat
  {
    (b & PayloadMask) as nat
  }

  /** The three flags of b and the payload bits of b are independent fields. */
  predicate SameFlags(a: Byte, b: Byte)
  {
    IsAlive(a) == IsAlive(b) && NeedsCheck(a) == NeedsCheck(b) && HasChanged(a) == HasChanged(b)
  }

  function Decode(b: Byte): (c: Cell)
    ensures c.alive == IsAlive(b) && c.check == NeedsCheck(b) && c.changed == HasChanged(b)
    ensures c.payload == Payload(b)
  {
    Cell(IsAlive(b), NeedsCheck(b), HasChanged(b), Payload(b))
  }

  function Encode(c: Cell): (b: Byte)
    requires c.payload < ChangeMask as nat
    ensures IsAlive(b) == c.alive && NeedsCheck(b) == c.check && HasChanged(b) == c.changed
    ensures Payload(b) == c.payload
  {
    SetAlive(SetCheck(SetChanged(PayloadByte(c.payload), c.changed), c.check), c.alive)
  }

  lemma EncodeDecode(b: Byte)
    ensures Encode(Decode(b)) == b
  {
  }

  lemma DecodeEncode(c: Cell)
    requires c.payload < ChangeMask as nat
    ensures Decode(Encode(c)) == c
  {
  }

  /** Two bytes with the same flags and the same payload are the same byte. */
  lemma FieldsDetermineByte(a: Byte, b: Byte)
    requires SameFlags(a, b) && Payload(a) == Payload(b)
    ensures a == b
  {
    EncodeDecode(a);
    EncodeDecode(b);
  }

  /** Sets or clears the alive flag with StateMask / StateUnmask. */
  function SetAlive(b: Byte, v: bool): (r: Byte)
    ensures IsAlive(r) == v
    ensures NeedsCheck(r) == NeedsCheck(b) && HasChanged(r) == HasChanged(b) && Payload(r) == Payload(b)
  {
    if v then b | StateMask else b & StateUnmask
  }

  /** Sets or clears the check flag with CheckMask / CheckUnmask. */
  function SetCheck(b: Byte, v: bool): (r: Byte)
    ensures NeedsCheck(r) == v
    ensures IsAlive(r) == IsAlive(b) && HasChanged(r) == HasChanged(b) && Payload(r) == Payload(b)
  {
    if v then b | CheckMask else b & CheckUnmask
  }

  /** Sets or clears the changed flag with ChangeMask / ChangeUnmask. */
  function SetChanged(b: Byte, v: bool): (r: Byte)
    ensures HasChanged(r) == v
    ensures IsAlive(r) == IsAlive(b) && NeedsCheck(r) == NeedsCheck(b) && Payload(r) == Payload(b)
  {
    if v then b | ChangeMask else b & ChangeUnmask
  }

  /** A payload on its own: a byte with every flag clear. */
  function PayloadByte(n: nat): (r: Byte)
    requires n < ChangeMask as nat
    ensures !IsAlive(r) && !NeedsCheck(r) && !HasChanged(r) && Payload(r) == n
  {
    n as Byte
  }

  /** Replaces the payload, keeping the flags. */
  function WithPayload(b: Byte, n: nat): (r: Byte)
    requires n < ChangeMask as nat
    ensures SameFlags(r, b) && Payload(r) == n
  {
    (b & FlagMask) | PayloadByte(n)
  }

  /** Byte increment of a neighbour count: no carry reaches the flags. */
  function IncPayload(b: Byte): (r: Byte)
    requires Payload(b) < PayloadMask as nat
    ensures SameFlags(r, b) && Payload(r) == Payload(b) + 1
  {
    b + 1
  }

  /** Byte decrement of a neighbour count: no borrow reaches the flags. */
  function DecPayload(b: Byte): (r: Byte)
    requires Payload(b) > 0
    ensures SameFlags(r, b) && Payload(r) == Payload(b) - 1
  {
    b - 1
  }

  /** Each flag mask and its unmask are complements within the byte. */
  lemma MasksComplement()
    ensures StateMask | StateUnmask == 255 && StateMask & StateUnmask == 0
    ensures CheckMask | CheckUnmask == 255 && CheckMask & CheckUnmask == 0
    ensures ChangeMask | ChangeUnmask == 255 && ChangeMask & ChangeUnmask == 0
  {
  }

  /** The three flags are the single bits 7, 6 and 5, pairwise disjoint,
      and the payload lies strictly below all of them. */
  lemma MasksAreDistinctBits()
    ensures StateMask == 1 << 7 && CheckMask == 1 << 6 && ChangeMask == 1 << 5
    ensures StateMask & CheckMask == 0 && StateMask & ChangeMask == 0 && CheckMask & ChangeMask == 0
    ensures StateMask | CheckMask | ChangeMask == FlagMask
    ensures FlagMask & PayloadMask == 0 && FlagMask | PayloadMask == 255
    ensures PayloadMask as nat == ChangeMask as nat - 1
  {
  }

  /** A neighbour count 0..8 stored as payload leaves every flag untouched. */
  lemma CountFitsBelowFlags(b: Byte, n: nat)
    requires n <= 8
    ensures n < ChangeMask as nat
    ensures WithPayload(b, n) & FlagMask == b & FlagMask
  {
  }
}
