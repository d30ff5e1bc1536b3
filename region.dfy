/**
  An axis-aligned box of grid cells with a minimum corner and a size, and the bijection
  between its cells and the indices 0 .. Length - 1 (Assets/BonesCubed/Common/DataTypes/Core/Region.cs).
  Cells are numbered x fastest, then y, then z.
*/
module Regions {
  import opened Wrappers
  import opened Coordinates
  import opened IntMath

  datatype Region = Region(position: BlockPos, size: BlockPos)

  /** The number of cells: the product of the three sizes (negative sizes are not rejected). */
  function Length(r: Region): int {
    r.size.x * r.size.y * r.size.z
  }

  /** Whether a position lies inside the region. */
  predicate Contains(r: Region, pos: BlockPos) {
    var p := Sub(pos, r.position);
    if p.x < 0 || p.y < 0 || p.z < 0 then false
    else p.x < r.size.x && p.y < r.size.y && p.z < r.size.z
  }

  /** The index of a position; a position outside the region is an IndexOutOfRangeException. */
  function IndexFromPosition(r: Region, pos: BlockPos): Result<int> {
    if !Contains(r, pos) then Err(IndexOutOfRange)
    else
      var p := Sub(pos, r.position);
      Ok(p.z * r.size.x * r.size.y + p.y * r.size.x + p.x)
  }

  /** The position of an index, with C#'s truncating division; an index outside 0 .. Length - 1 is an IndexOutOfRangeException. */
  function PositionFromIndex(r: Region, index: int): Result<BlockPos> {
    if index < 0 || index >= Length(r) then Err(IndexOutOfRange)
    else
      assert r.size.x != 0 && r.size.x * r.size.y != 0;
      var z := CDiv(index, r.size.x * r.size.y);
      var y := CRem(CDiv(index, r.size.x), r.size.y);
      var x := CRem(index, r.size.x);
      Ok(Add(BlockPos(x, y, z), r.position))
  }

  /** `==`: the same corner and the same size; `Equals` additionally rejects non-regions (`None`). */
  predicate Eq(a: Region, b: Region) {
    a.position == b.position && a.size == b.size
  }

  predicate Ne(a: Region, b: Region) {
    !(a.position == b.position && a.size == b.size)
  }

  predicate EqualsObject(a: Region, other: Option<Region>) {
    other.Some? && other.value.size == a.size && other.value.position == a.position
  }

  /** A region whose size is positive on every axis. */
  predicate Proper(r: Region) {
    r.size.x > 0 && r.size.y > 0 && r.size.z > 0
  }

  /** The z-major index of a cell inside a box of size sx * sy * sz is below the box volume. */
  lemma CellIndexBound(x: int, y: int, z: int, sx: int, sy: int, sz: int)
    requires 0 <= x < sx && 0 <= y < sy && 0 <= z < sz
    ensures 0 <= y * sx + x < sx * sy
    ensures 0 <= z * sx * sy + y * sx + x < sx * sy * sz
  {
    MulMonotone(sy - 1, y, sx);
    assert (sy - 1) * sx == sx * sy - sx;
    MulMonotone(sz - 1, z, sx * sy);
    assert z * sx * sy == z * (sx * sy);
    assert (sz - 1) * (sx * sy) == sx * sy * sz - sx * sy;
    MulMonotone(z, 0, sx * sy);
  }

  /** The cell index determines the coordinates through quotient and remainder. */
  lemma CellIndexRecover(x: int, y: int, z: int, sx: int, sy: int)
    requires 0 <= x < sx && 0 <= y < sy && 0 <= z
    ensures var i := z * sx * sy + y * sx + x;
      i / (sx * sy) == z && (i / sx) % sy == y && i % sx == x
  {
    var i := z * sx * sy + y * sx + x;
    assert i == (z * sy + y) * sx + x;
    MulMonotone(z, 0, sy);
    DivModUnique(i, sx, z * sy + y, x);
    DivModUnique(z * sy + y, sy, z, y);
    DivDiv(i, sx, sy);
  }

  /** Every index below the volume splits into coordinates inside the box. */
  lemma CellIndexSplit(i: int, sx: int, sy: int, sz: int)
    requires sx > 0 && sy > 0 && sz > 0 && 0 <= i < sx * sy * sz
    ensures var z, y, x := i / (sx * sy), (i / sx) % sy, i % sx;
      0 <= x < sx && 0 <= y < sy && 0 <= z < sz && i == z * sx * sy + y * sx + x
  {
    DivDiv(i, sx, sy);
    assert i < sz * (sx * sy);
    DivBelow(i, sx * sy, sz);
    var z, y, x := i / (sx * sy), (i / sx) % sy, i % sx;
    assert i / sx == z * sy + y;
    assert i == (i / sx) * sx + x;
    assert i == (z * sy + y) * sx + x;
    assert (z * sy + y) * sx == z * sx * sy + y * sx;
  }

  /** Every contained position has an index in 0 .. Length - 1, and only contained positions have one. */
  lemma IndexFromPositionInRange(r: Region, pos: BlockPos)
    ensures IndexFromPosition(r, pos).Ok? <==> Contains(r, pos)
    ensures IndexFromPosition(r, pos).Err? ==> IndexFromPosition(r, pos).error == IndexOutOfRange
    ensures IndexFromPosition(r, pos).Ok? ==> 0 <= IndexFromPosition(r, pos).value < Length(r)
  {
    if Contains(r, pos) {
      var p := Sub(pos, r.position);
      CellIndexBound(p.x, p.y, p.z, r.size.x, r.size.y, r.size.z);
    }
  }

  /** Every index in range has a position, it is contained, and no other index has one. */
  lemma PositionFromIndexInRegion(r: Region, index: int)
    requires Proper(r)
    ensures PositionFromIndex(r, index).Ok? <==> 0 <= index < Length(r)
    ensures PositionFromIndex(r, index).Ok? ==> Contains(r, PositionFromIndex(r, index).value)
  {
    if 0 <= index < Length(r) {
      var sx, sy, sz := r.size.x, r.size.y, r.size.z;
      CellIndexSplit(index, sx, sy, sz);
      CDivAgrees(index, sx * sy);
      CDivAgrees(index, sx);
      CDivAgrees(index / sx, sy);
    }
  }

  /** Position to index to position is the identity on the region. */
  lemma PositionIndexRoundTrip(r: Region, pos: BlockPos)
    requires Proper(r) && Contains(r, pos)
    ensures IndexFromPosition(r, pos).Ok?
    ensures PositionFromIndex(r, IndexFromPosition(r, pos).value) == Ok(pos)
  {
    IndexFromPositionInRange(r, pos);
    var i := IndexFromPosition(r, pos).value;
    var p := Sub(pos, r.position);
    var sx, sy := r.size.x, r.size.y;
    CellIndexRecover(p.x, p.y, p.z, sx, sy);
    CDivAgrees(i, sx * sy);
    CDivAgrees(i, sx);
    CDivAgrees(i / sx, sy);
  }

  /** Index to position to index is the identity on 0 .. Length - 1. */
  lemma IndexPositionRoundTrip(r: Region, index: int)
    requires Proper(r) && 0 <= index < Length(r)
    ensures PositionFromIndex(r, index).Ok?
    ensures IndexFromPosition(r, PositionFromIndex(r, index).value) == Ok(index)
  {
    var sx, sy, sz := r.size.x, r.size.y, r.size.z;
    CellIndexSplit(index, sx, sy, sz);
    CDivAgrees(index, sx * sy);
    CDivAgrees(index, sx);
    CDivAgrees(index / sx, sy);
    var z, y, x := index / (sx * sy), (index / sx) % sy, index % sx;
    var pos := Add(BlockPos(x, y, z), r.position);
    assert PositionFromIndex(r, index) == Ok(pos);
    assert Sub(pos, r.position) == BlockPos(x, y, z);
    assert Contains(r, pos);
  }

  /** Two contained positions share an index exactly when they are the same position. */
  lemma IndexFromPositionInjective(r: Region, a: BlockPos, b: BlockPos)
    requires Proper(r) && Contains(r, a) && Contains(r, b)
    ensures IndexFromPosition(r, a) == IndexFromPosition(r, b) <==> a == b
  {
    PositionIndexRoundTrip(r, a);
    PositionIndexRoundTrip(r, b);
  }

  /** The cells of a region in index order: entry i is `PositionFromIndex(r, i)` (see `CellsInIndexOrder`). */
  function Cells(r: Region): (cs: seq<BlockPos>)
    requires Proper(r)
    ensures |cs| == Length(r)
  {
    CellIndexBound(0, 0, 0, r.size.x, r.size.y, r.size.z);
    seq(Length(r), i requires 0 <= i < Length(r) => PositionFromIndex(r, i).value)
  }

  /** Entry i of the cell list lies in the region and has index i. */
  lemma CellsInIndexOrder(r: Region, i: int)
    requires Proper(r) && 0 <= i < Length(r)
    ensures Contains(r, Cells(r)[i]) && IndexFromPosition(r, Cells(r)[i]) == Ok(i)
  {
    PositionFromIndexInRegion(r, i);
    IndexPositionRoundTrip(r, i);
  }

  /** Every entry of the cell list lies in the region. */
  lemma CellsInRegion(r: Region)
    requires Proper(r)
    ensures forall i :: 0 <= i < |Cells(r)| ==> Contains(r, Cells(r)[i])
  {
    forall i | 0 <= i < |Cells(r)|
      ensures Contains(r, Cells(r)[i])
    {
      CellsInIndexOrder(r, i);
    }
  }

  /** Every cell of the region is listed, exactly at its own index. */
  lemma CellsCoverRegion(r: Region, pos: BlockPos)
    requires Proper(r) && Contains(r, pos)
    ensures pos in Cells(r)
    ensures forall i :: 0 <= i < |Cells(r)| ==> (Cells(r)[i] == pos <==> IndexFromPosition(r, pos) == Ok(i))
  {
    IndexFromPositionInRange(r, pos);
    PositionIndexRoundTrip(r, pos);
    var at := IndexFromPosition(r, pos).value;
    assert Cells(r)[at] == pos;
    forall i | 0 <= i < |Cells(r)|
      ensures Cells(r)[i] == pos <==> IndexFromPosition(r, pos) == Ok(i)
    {
      CellsInIndexOrder(r, i);
    }
  }

  /** `==` and `Equals` are structural equality; `!=` is its negation. */
  lemma EqualityAgreement(a: Region, b: Region, other: Option<Region>)
    ensures Eq(a, b) <==> a == b
    ensures Ne(a, b) <==> !Eq(a, b)
    ensures EqualsObject(a, Some(b)) <==> Eq(a, b)
    ensures other.None? ==> !EqualsObject(a, other)
  {
  }
}
