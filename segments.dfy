/**
  The occluding-segment flag set of a block model (Assets/BonesCubed/Common/API/IBlockModel.cs):
  one bit per face of the unit cube, one for the rest of the model, held in a byte.
*/
module OccludingSegments {
  type Mask = bv8

  const NoSegment: Mask := 0
  const North: Mask := 1
  const East: Mask := 2
  const South: Mask := 4
  const West: Mask := 8
  const Top: Mask := 16
  const Bottom: Mask := 32
  const Center: Mask := 64
  const Everything: Mask := 127

  /** One of the six face flags. */
  predicate IsFace(f: Mask) {
    f == North || f == East || f == South || f == West || f == Top || f == Bottom
  }

  /** A single segment: a face or the centre. */
  predicate IsTag(f: Mask) {
    IsFace(f) || f == Center
  }

  /** A flag set using no bit outside `Everything`. */
  predicate InEverything(m: Mask) {
    m & Everything == m
  }

  /** The number of tags: the flag loops walk `TagBit(0)` .. `TagBit(TagCount - 1)`. */
  const TagCount: nat := 7

  /** The k-th flag in bit order, `1 << k`, for k in 0 .. 7 (the eighth, 128, ends the flag loops). */
  function TagBit(k: nat): (r: Mask)
    requires k <= 7
    ensures k < 7 <==> IsTag(r)
    ensures k < 6 <==> IsFace(r)
  {
    if k == 0 then North
    else if k == 1 then East
    else if k == 2 then South
    else if k == 3 then West
    else if k == 4 then Top
    else if k == 5 then Bottom
    else if k == 6 then Center
    else 128
  }

  /** Walking the flags in bit order doubles the flag and visits every tag once. */
  lemma TagBitOrder(k: nat)
    requires k < 7
    ensures TagBit(k + 1) == TagBit(k) << 1
    ensures TagBit(k) < TagBit(k + 1)
    ensures TagBit(k) < 127 && (TagBit(k + 1) < 127 <==> k + 1 < 7)
  {
  }

  /** Every tag is `TagBit(k)` for exactly one k. */
  lemma TagIsTagBit(f: Mask)
    requires IsTag(f)
    ensures exists k :: 0 <= k < 7 && TagBit(k) == f
    ensures forall k :: 0 <= k < 7 && TagBit(k) == f ==> (forall j :: 0 <= j < 7 && j != k ==> TagBit(j) != f)
  {
    if f == North { assert TagBit(0) == f; }
    else if f == East { assert TagBit(1) == f; }
    else if f == South { assert TagBit(2) == f; }
    else if f == West { assert TagBit(3) == f; }
    else if f == Top { assert TagBit(4) == f; }
    else if f == Bottom { assert TagBit(5) == f; }
    else { assert TagBit(6) == f; }
  }

  /** Two tags share a bit exactly when they are the same tag. */
  lemma TagsDisjoint(a: Mask, b: Mask)
    requires IsTag(a) && IsTag(b)
    ensures a & b != 0 <==> a == b
    ensures a & Everything == a && a != 0
  {
  }
}
