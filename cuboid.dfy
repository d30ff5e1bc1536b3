/**
  The cuboid block-position iterator (Assets/BonesCubed/Common/Iterators/Cuboidterator.cs).
  The iterator yields every position between an inclusive minimum and maximum corner with
  x in the outer loop, z in the middle loop and y in the inner loop. The yielded sequence is
  specified by `Box`, built from the end so that each loop appends to what the previous
  iterations produced.
*/
module Cuboids {
  import opened Coordinates

  /** The iterator's state: two inclusive corners. */
  datatype CuboidIterator = CuboidIterator(min: BlockPos, max: BlockPos)

  /** `OverChunk()`: every local position of a chunk at the origin. */
  function OverChunk(): (it: CuboidIterator)
    ensures Le(it.min, it.max)
  {
    CuboidIterator(BlockPos(0, 0, 0), BlockPos(15, 15, 15))
  }

  /** `FromTwoPoints(p1, p2)`: the corners are the axis-wise minimum and maximum. */
  function FromTwoPoints(p1: BlockPos, p2: BlockPos): (it: CuboidIterator)
    ensures Le(it.min, it.max)
    ensures Le(it.min, p1) && Le(it.min, p2) && Le(p1, it.max) && Le(p2, it.max)
  {
    CuboidIterator(Min(p1, p2), Max(p1, p2))
  }

  /** The positions (x, y, z) for y from ylo up to yend - 1. */
  function Column(x: int, z: int, ylo: int, yend: int): seq<BlockPos>
    decreases yend - ylo
  {
    if yend <= ylo then [] else Column(x, z, ylo, yend - 1) + [BlockPos(x, yend - 1, z)]
  }

  /** The columns for z from zlo up to zend - 1, in that order. */
  function Slab(x: int, zlo: int, zend: int, ylo: int, yend: int): seq<BlockPos>
    decreases zend - zlo
  {
    if zend <= zlo then [] else Slab(x, zlo, zend - 1, ylo, yend) + Column(x, zend - 1, ylo, yend)
  }

  /** The slabs for x from xlo up to xend - 1, in that order. */
  function Box(xlo: int, xend: int, zlo: int, zend: int, ylo: int, yend: int): seq<BlockPos>
    decreases xend - xlo
  {
    if xend <= xlo then []
    else Box(xlo, xend - 1, zlo, zend, ylo, yend) + Slab(xend - 1, zlo, zend, ylo, yend)
  }

  /** The sequence the iterator yields. */
  function Positions(it: CuboidIterator): seq<BlockPos> {
    Box(it.min.x, it.max.x + 1, it.min.z, it.max.z + 1, it.min.y, it.max.y + 1)
  }

  /** The enumeration order: x first, then z, then y. */
  predicate Before(a: BlockPos, b: BlockPos) {
    a.x < b.x || (a.x == b.x && (a.z < b.z || (a.z == b.z && a.y < b.y)))
  }

  predicate StrictlyOrdered(s: seq<BlockPos>) {
    forall i, j :: 0 <= i < j < |s| ==> Before(s[i], s[j])
  }

  function Count(lo: int, end: int): nat {
    if end <= lo then 0 else end - lo
  }

  /** `GetEnumerator()`: the three nested loops, collecting what they yield. */
  method GetEnumerator(it: CuboidIterator) returns (yielded: seq<BlockPos>)
    ensures yielded == Positions(it)
  {
    var min, max := it.min, it.max;
    yielded := [];
    var x := min.x;
    while x <= max.x
      invariant min.x <= x && (x <= max.x + 1 || x == min.x)
      invariant yielded == Box(min.x, x, min.z, max.z + 1, min.y, max.y + 1)
      decreases max.x - x
    {
      var z := min.z;
      while z <= max.z
        invariant min.z <= z && (z <= max.z + 1 || z == min.z)
        invariant yielded == Box(min.x, x, min.z, max.z + 1, min.y, max.y + 1)
                           + Slab(x, min.z, z, min.y, max.y + 1)
        decreases max.z - z
      {
        var y := min.y;
        while y <= max.y
          invariant min.y <= y && (y <= max.y + 1 || y == min.y)
          invariant yielded == Box(min.x, x, min.z, max.z + 1, min.y, max.y + 1)
                             + Slab(x, min.z, z, min.y, max.y + 1)
                             + Column(x, z, min.y, y)
          decreases max.y - y
        {
          yielded := yielded + [BlockPos(x, y, z)];
          y := y + 1;
        }
        assert Column(x, z, min.y, y) == Column(x, z, min.y, max.y + 1);
        z := z + 1;
      }
      assert Slab(x, min.z, z, min.y, max.y + 1) == Slab(x, min.z, max.z + 1, min.y, max.y + 1);
      x := x + 1;
    }
  }

  // ----- membership -----

  lemma {:induction false} ColumnMembers(x: int, z: int, ylo: int, yend: int, p: BlockPos)
    ensures p in Column(x, z, ylo, yend) <==> p.x == x && p.z == z && ylo <= p.y < yend
    ensures |Column(x, z, ylo, yend)| == Count(ylo, yend)
    decreases yend - ylo
  {
    if yend > ylo {
      ColumnMembers(x, z, ylo, yend - 1, p);
    }
  }

  lemma {:induction false} SlabMembers(x: int, zlo: int, zend: int, ylo: int, yend: int, p: BlockPos)
    ensures p in Slab(x, zlo, zend, ylo, yend) <==>
      p.x == x && zlo <= p.z < zend && ylo <= p.y < yend
    ensures |Slab(x, zlo, zend, ylo, yend)| == Count(zlo, zend) * Count(ylo, yend)
    decreases zend - zlo
  {
    if zend > zlo {
      SlabMembers(x, zlo, zend - 1, ylo, yend, p);
      ColumnMembers(x, zend - 1, ylo, yend, p);
      assert Count(zlo, zend) * Count(ylo, yend)
          == Count(zlo, zend - 1) * Count(ylo, yend) + Count(ylo, yend);
    }
  }

  lemma {:induction false} BoxMembers(xlo: int, xend: int, zlo: int, zend: int, ylo: int, yend: int, p: BlockPos)
    ensures p in Box(xlo, xend, zlo, zend, ylo, yend) <==>
      xlo <= p.x < xend && zlo <= p.z < zend && ylo <= p.y < yend
    ensures |Box(xlo, xend, zlo, zend, ylo, yend)| == Count(xlo, xend) * (Count(zlo, zend) * Count(ylo, yend))
    decreases xend - xlo
  {
    if xend > xlo {
      BoxMembers(xlo, xend - 1, zlo, zend, ylo, yend, p);
      SlabMembers(xend - 1, zlo, zend, ylo, yend, p);
      var area := Count(zlo, zend) * Count(ylo, yend);
      assert Count(xlo, xend) * area == Count(xlo, xend - 1) * area + area;
    }
  }

  /** The iterator yields exactly the positions between its corners, inclusive, and volume-many of them. */
  lemma PositionsAreTheCuboid(it: CuboidIterator, p: BlockPos)
    ensures p in Positions(it) <==> Le(it.min, p) && Le(p, it.max)
    ensures |Positions(it)| ==
      Count(it.min.x, it.max.x + 1) * (Count(it.min.z, it.max.z + 1) * Count(it.min.y, it.max.y + 1))
  {
    var box := Box(it.min.x, it.max.x + 1, it.min.z, it.max.z + 1, it.min.y, it.max.y + 1);
    assert Positions(it) == box;
    BoxMembers(it.min.x, it.max.x + 1, it.min.z, it.max.z + 1, it.min.y, it.max.y + 1, p);
    assert p in box <==> Le(it.min, p) && Le(p, it.max);
  }

  // ----- order -----

  lemma ConcatOrdered(a: seq<BlockPos>, b: seq<BlockPos>)
    requires StrictlyOrdered(a) && StrictlyOrdered(b)
    requires forall p, q :: p in a && q in b ==> Before(p, q)
    ensures StrictlyOrdered(a + b)
  {
    var s := a + b;
    forall i, j | 0 <= i < j < |s|
      ensures Before(s[i], s[j])
    {
      if j < |a| {
        assert s[i] == a[i] && s[j] == a[j];
      } else if i >= |a| {
        assert s[i] == b[i - |a|] && s[j] == b[j - |a|];
      } else {
        assert s[i] in a && s[j] in b;
      }
    }
  }

  lemma {:induction false} ColumnOrdered(x: int, z: int, ylo: int, yend: int)
    ensures StrictlyOrdered(Column(x, z, ylo, yend))
    decreases yend - ylo
  {
    if yend > ylo {
      ColumnOrdered(x, z, ylo, yend - 1);
      var prefix := Column(x, z, ylo, yend - 1);
      forall p | p in prefix
        ensures Before(p, BlockPos(x, yend - 1, z))
      {
        ColumnMembers(x, z, ylo, yend - 1, p);
      }
      ConcatOrdered(Column(x, z, ylo, yend - 1), [BlockPos(x, yend - 1, z)]);
    }
  }

  lemma {:induction false} SlabOrdered(x: int, zlo: int, zend: int, ylo: int, yend: int)
    ensures StrictlyOrdered(Slab(x, zlo, zend, ylo, yend))
    decreases zend - zlo
  {
    if zend > zlo {
      SlabOrdered(x, zlo, zend - 1, ylo, yend);
      ColumnOrdered(x, zend - 1, ylo, yend);
      forall p, q | p in Slab(x, zlo, zend - 1, ylo, yend) && q in Column(x, zend - 1, ylo, yend)
        ensures Before(p, q)
      {
        SlabMembers(x, zlo, zend - 1, ylo, yend, p);
        ColumnMembers(x, zend - 1, ylo, yend, q);
      }
      ConcatOrdered(Slab(x, zlo, zend - 1, ylo, yend), Column(x, zend - 1, ylo, yend));
    }
  }

  lemma {:induction false} BoxOrdered(xlo: int, xend: int, zlo: int, zend: int, ylo: int, yend: int)
    ensures StrictlyOrdered(Box(xlo, xend, zlo, zend, ylo, yend))
    decreases xend - xlo
  {
    if xend > xlo {
      BoxOrdered(xlo, xend - 1, zlo, zend, ylo, yend);
      SlabOrdered(xend - 1, zlo, zend, ylo, yend);
      forall p, q | p in Box(xlo, xend - 1, zlo, zend, ylo, yend) && q in Slab(xend - 1, zlo, zend, ylo, yend)
        ensures Before(p, q)
      {
        BoxMembers(xlo, xend - 1, zlo, zend, ylo, yend, p);
        SlabMembers(xend - 1, zlo, zend, ylo, yend, q);
      }
      ConcatOrdered(Box(xlo, xend - 1, zlo, zend, ylo, yend), Slab(xend - 1, zlo, zend, ylo, yend));
    }
  }

  /** The iterator yields positions in strictly increasing (x, z, y) order, hence never one twice. */
  lemma PositionsOrdered(it: CuboidIterator)
    ensures StrictlyOrdered(Positions(it))
    ensures forall i, j :: 0 <= i < j < |Positions(it)| ==> Positions(it)[i] != Positions(it)[j]
  {
    BoxOrdered(it.min.x, it.max.x + 1, it.min.z, it.max.z + 1, it.min.y, it.max.y + 1);
  }

  /** FromTwoPoints does not depend on the order of its arguments, and covers both points. */
  lemma FromTwoPointsSymmetric(p1: BlockPos, p2: BlockPos)
    ensures FromTwoPoints(p1, p2) == FromTwoPoints(p2, p1)
    ensures p1 in Positions(FromTwoPoints(p1, p2)) && p2 in Positions(FromTwoPoints(p1, p2))
  {
    PositionsAreTheCuboid(FromTwoPoints(p1, p2), p1);
    PositionsAreTheCuboid(FromTwoPoints(p1, p2), p2);
  }

  /**
    A cuboid spanning 16 positions on every axis, such as OverChunk, yields 4096 positions:
    those of the chunk that starts at its minimum corner.
  */
  lemma ChunkSizedCuboid(it: CuboidIterator, p: BlockPos)
    requires it.max == AddScalar(it.min, 15)
    ensures |Positions(it)| == ChunkVolume
    ensures p in Positions(it) <==> Le(it.min, p) && Lt(p, AddScalar(it.min, 16))
  {
    PositionsAreTheCuboid(it, p);
    var nx, nz, ny := Count(it.min.x, it.max.x + 1), Count(it.min.z, it.max.z + 1), Count(it.min.y, it.max.y + 1);
    assert nx == 16 && ny == 16 && nz == 16;
  }

  lemma OverChunkIsChunkSized()
    ensures OverChunk().min == Origin && OverChunk().max == AddScalar(Origin, 15)
  {
  }
}
