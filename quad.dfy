/** One node of the quadtree (model/quadtree/quad.h): four child slots and a
    metadata byte whose low nibble holds a check bit per slot and whose high
    nibble holds an existence bit per slot. A node's own check bit lives in
    its parent, at the node's position there. */
module Quadtree {

  type Byte = bv8
  type uint8 = n: int | 0 <= n < 0x100
  type uint32 = n: int | 0 <= n < 0x1_0000_0000

  /** A local position inside a quad; every lookup table has four entries. */
  type SlotPos = p: int | 0 <= p < 4

  const MetadataCheckMaskAll: Byte := 15
  const MetadataExistMaskAll: Byte := 240

  const MetadataCheckMask: seq<Byte> := [1, 2, 4, 8]
  const MetadataCheckUnmask: seq<Byte> := [254, 253, 251, 247]
  const MetadataExistMask: seq<Byte> := [16, 32, 64, 128]
  const MetadataExistUnmask: seq<Byte> := [239, 223, 191, 127]

  /** Bit i of the low nibble: slot i's check bit. */
  function CheckBitOf(i: SlotPos): Byte { (1 as Byte) << i }
  /** Bit i of the high nibble: slot i's exist bit. */
  function ExistBitOf(i: SlotPos): Byte { (16 as Byte) << i }

  /** Slot i's check mask is bit i and its unmask is the complement. */
  lemma CheckTables(i: SlotPos)
    ensures MetadataCheckMask[i] == CheckBitOf(i) == (1 as Byte) << i
    ensures MetadataCheckUnmask[i] == 255 - MetadataCheckMask[i]
    ensures MetadataCheckUnmask[i] == !MetadataCheckMask[i]
  {
  }

  /** Slot i's exist mask is bit 4 + i and its unmask is the complement. */
  lemma ExistTables(i: SlotPos)
    ensures MetadataExistMask[i] == ExistBitOf(i) == (16 as Byte) << i
    ensures MetadataExistUnmask[i] == 255 - MetadataExistMask[i]
    ensures MetadataExistUnmask[i] == !MetadataExistMask[i]
  {
  }

  /** The combined masks are the unions of the tables, disjoint, and cover the byte. */
  lemma CombinedMasks()
    ensures MetadataCheckMask[0] | MetadataCheckMask[1] | MetadataCheckMask[2] | MetadataCheckMask[3] == MetadataCheckMaskAll
    ensures MetadataExistMask[0] | MetadataExistMask[1] | MetadataExistMask[2] | MetadataExistMask[3] == MetadataExistMaskAll
    ensures MetadataCheckMaskAll & MetadataExistMaskAll == 0
    ensures MetadataCheckMaskAll | MetadataExistMaskAll == 255
  {
  }

  predicate CheckBit(m: Byte, p: SlotPos) { m & CheckBitOf(p) != 0 }
  predicate ExistBit(m: Byte, p: SlotPos) { m & ExistBitOf(p) != 0 }

  /** Check bit p of m set to v with the slot's mask or unmask. */
  function WithCheck(m: Byte, p: SlotPos, v: bool): (r: Byte)
    ensures CheckBit(r, p) == v
    ensures forall q: SlotPos :: q != p ==> CheckBit(r, q) == CheckBit(m, q)
    ensures forall q: SlotPos :: ExistBit(r, q) == ExistBit(m, q)
  {
    CheckTablesWrite(m, p, v);
    CheckWrite(m, p, v);
    if v then m | MetadataCheckMask[p] else m & MetadataCheckUnmask[p]
  }

  /** Exist bit p of m set to v with the slot's mask or unmask. */
  function WithExist(m: Byte, p: SlotPos, v: bool): (r: Byte)
    ensures ExistBit(r, p) == v
    ensures forall q: SlotPos :: q != p ==> ExistBit(r, q) == ExistBit(m, q)
    ensures forall q: SlotPos :: CheckBit(r, q) == CheckBit(m, q)
  {
    ExistTablesWrite(m, p, v);
    ExistWrite(m, p, v);
    if v then m | MetadataExistMask[p] else m & MetadataExistUnmask[p]
  }

  /** The byte with one bit set to v and the rest of m kept. */
  function Written(m: Byte, bit: Byte, v: bool): Byte
  {
    if v then m | bit else m & !bit
  }

  /** Or-ing in a mask or and-ing with an unmask writes the slot's bit. */
  lemma CheckTablesWrite(m: Byte, p: SlotPos, v: bool)
    ensures (if v then m | MetadataCheckMask[p] else m & MetadataCheckUnmask[p]) == Written(m, CheckBitOf(p), v)
  {
    CheckTables(p);
  }

  lemma ExistTablesWrite(m: Byte, p: SlotPos, v: bool)
    ensures (if v then m | MetadataExistMask[p] else m & MetadataExistUnmask[p]) == Written(m, ExistBitOf(p), v)
  {
    ExistTables(p);
  }

  lemma CheckWriteSame(m: Byte, p: SlotPos, v: bool)
    ensures CheckBit(Written(m, CheckBitOf(p), v), p) == v
  {
  }

  lemma CheckWriteOther(m: Byte, p: SlotPos, q: SlotPos, v: bool)
    requires p != q
    ensures CheckBit(Written(m, CheckBitOf(p), v), q) == CheckBit(m, q)
  {
  }

  lemma CheckWriteExist(m: Byte, p: SlotPos, q: SlotPos, v: bool)
    ensures ExistBit(Written(m, CheckBitOf(p), v), q) == ExistBit(m, q)
  {
  }

  lemma ExistWriteSame(m: Byte, p: SlotPos, v: bool)
    ensures ExistBit(Written(m, ExistBitOf(p), v), p) == v
  {
  }

  lemma ExistWriteOther(m: Byte, p: SlotPos, q: SlotPos, v: bool)
    requires p != q
    ensures ExistBit(Written(m, ExistBitOf(p), v), q) == ExistBit(m, q)
  {
  }

  lemma ExistWriteCheck(m: Byte, p: SlotPos, q: SlotPos, v: bool)
    ensures CheckBit(Written(m, ExistBitOf(p), v), q) == CheckBit(m, q)
  {
  }

  /** Writing check bit p leaves the other three check bits and all four exist bits. */
  lemma CheckWrite(m: Byte, p: SlotPos, v: bool)
    ensures CheckBit(Written(m, CheckBitOf(p), v), p) == v
    ensures forall q: SlotPos :: q != p ==> CheckBit(Written(m, CheckBitOf(p), v), q) == CheckBit(m, q)
    ensures forall q: SlotPos :: ExistBit(Written(m, CheckBitOf(p), v), q) == ExistBit(m, q)
  {
    CheckWriteSame(m, p, v);
    forall q: SlotPos | q != p
      ensures CheckBit(Written(m, CheckBitOf(p), v), q) == CheckBit(m, q)
    {
      CheckWriteOther(m, p, q, v);
    }
    forall q: SlotPos
      ensures ExistBit(Written(m, CheckBitOf(p), v), q) == ExistBit(m, q)
    {
      CheckWriteExist(m, p, q, v);
    }
  }

  /** Writing exist bit p leaves the other three exist bits and all four check bits. */
  lemma ExistWrite(m: Byte, p: SlotPos, v: bool)
    ensures ExistBit(Written(m, ExistBitOf(p), v), p) == v
    ensures forall q: SlotPos :: q != p ==> ExistBit(Written(m, ExistBitOf(p), v), q) == ExistBit(m, q)
    ensures forall q: SlotPos :: CheckBit(Written(m, ExistBitOf(p), v), q) == CheckBit(m, q)
  {
    ExistWriteSame(m, p, v);
    forall q: SlotPos | q != p
      ensures ExistBit(Written(m, ExistBitOf(p), v), q) == ExistBit(m, q)
    {
      ExistWriteOther(m, p, q, v);
    }
    forall q: SlotPos
      ensures CheckBit(Written(m, ExistBitOf(p), v), q) == CheckBit(m, q)
    {
      ExistWriteCheck(m, p, q, v);
    }
  }

  /** What a child slot holds: nothing (a null pointer), a leaf's data (in
      a level-1 quad), or a quad one level down. */
  datatype Slot<L> = Empty | Leaf(value: L) | Node(quad: Quad<L>)

  class Quad<L> {
    /** 0 for the leaf level. */
    const level: uint8
    const x: uint32
    const y: uint32
    var metadata: Byte
    const subQuads: array<Slot<L>>
    /** The quad containing this one, null at the top. */
    var parent: Quad?<L>
    /** This quad's slot in its parent; kept right by the caller. */
    var posInParent: uint8

    /** Four slots, and the exist bits say which are occupied. */
    ghost predicate Valid()
      reads this, subQuads
    {
      subQuads.Length == 4
      && forall p: SlotPos :: ExistBit(metadata, p) <==> !subQuads[p].Empty?
    }

    /** quad_init: clear metadata, four empty slots, the given place in the tree. */
    constructor (x: uint32, y: uint32, level: uint8, parent: Quad?<L>)
      ensures this.x == x && this.y == y && this.level == level && this.parent == parent
      ensures metadata == 0 && posInParent == 0
      ensures fresh(subQuads) && subQuads.Length == 4
      ensures forall p: SlotPos :: subQuads[p] == Empty
      ensures Valid()
    {
      this.x, this.y, this.level, this.parent := x, y, level, parent;
      metadata := 0;
      subQuads := new Slot<L>[4](i => Empty);
      posInParent := 0;
    }

    /** quad_set_check: check bit pos set to the truth of value (non-zero),
        nothing else changed. */
    method SetCheck(pos: SlotPos, value: int)
      modifies this`metadata
      ensures metadata == WithCheck(old(metadata), pos, value != 0)
      ensures CheckBit(metadata, pos) == (value != 0)
      ensures forall q: SlotPos :: q != pos ==> CheckBit(metadata, q) == CheckBit(old(metadata), q)
      ensures forall q: SlotPos :: ExistBit(metadata, q) == ExistBit(old(metadata), q)
      ensures old(Valid()) ==> Valid()
      ensures forall c: Quad<L> | c.parent == this && c.posInParent == pos :: c.GetCheck() == (value != 0)
      ensures parent != null && parent != this && posInParent < 4 ==> GetCheck() == old(GetCheck())
    {
      metadata := WithCheck(metadata, pos, value != 0);
    }

    /** quad_get_check: this quad's check bit, read from its parent at this
        quad's position there; its own metadata is not read. */
    function GetCheck(): (b: bool)
      reads this`parent, this`posInParent, parent`metadata
      requires parent != null && posInParent < 4
      ensures b == CheckBit(parent.metadata, posInParent)
    {
      parent.metadata & MetadataCheckMask[posInParent] != 0
    }

    /** quad_set_sub_quad: slot pos now holds child and its exist bit says
        whether child is non-null; other slots and bits are unchanged. */
    method SetSubQuad(child: Slot<L>, pos: SlotPos)
      requires subQuads.Length == 4
      modifies this`metadata, subQuads
      ensures subQuads[pos] == child
      ensures forall q: SlotPos :: q != pos ==> subQuads[q] == old(subQuads[q])
      ensures metadata == WithExist(old(metadata), pos, !child.Empty?)
      ensures ExistBit(metadata, pos) <==> !child.Empty?
      ensures forall q: SlotPos :: q != pos ==> ExistBit(metadata, q) == ExistBit(old(metadata), q)
      ensures forall q: SlotPos :: CheckBit(metadata, q) == CheckBit(old(metadata), q)
      ensures old(Valid()) ==> Valid()
    {
      subQuads[pos] := child;
      metadata := WithExist(metadata, pos, !child.Empty?);
    }
  }
}
