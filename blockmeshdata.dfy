/**
  The per-block data of the older chunk mesher (Assets/BonesCubed/Common/DataTypes/BlockMeshData.cs):
  one byte that says whether the block is a solid cube. The byte decodes as "solid" when it
  is positive; the setter stores 1 or 0.
*/
module BlockMeshes {
  /** An unsigned 8-bit value. */
  type Byte = b: int | 0 <= b < 256

  /** The getter's decoding of the stored byte. */
  predicate IsSolidByte(b: int) {
    b > 0
  }

  /** The byte the setter stores: 1 for solid, 0 otherwise; decoding it gives back the value. */
  function SolidByte(value: bool): (r: Byte)
    ensures r == 0 || r == 1
    ensures IsSolidByte(r) == value
  {
    if value then 1 else 0
  }

  /** Setting a block to what it reads as keeps its meaning, and leaves the byte 0 or 1. */
  lemma SetNormalises(b: Byte)
    ensures IsSolidByte(SolidByte(IsSolidByte(b))) == IsSolidByte(b)
    ensures SolidByte(IsSolidByte(b)) == b <==> b <= 1
  {
  }

  class BlockMeshData {
    var isSolid: Byte

    /** The default value: a zero byte, which reads as not solid. */
    constructor ()
      ensures isSolid == 0 && !IsSolid()
    {
      isSolid := 0;
    }

    /** The `IsSolid` getter. */
    predicate IsSolid()
      reads this
    {
      IsSolidByte(isSolid)
    }

    /** The `IsSolid` setter: stores 1 or 0, so that the getter then returns `value`. */
    method SetIsSolid(value: bool)
      modifies this
      ensures isSolid == SolidByte(value)
      ensures IsSolid() == value
    {
      isSolid := if value then 1 else 0;
    }
  }
}
