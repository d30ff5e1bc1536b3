/**
  The 3 x 3 x 3 block of chunk grids around a centre chunk
  (Assets/BonesCubed/Common/Native/SurroundingChunkGrid.cs). The 27 fields `c0` .. `c26` are
  held as a sequence of 27 grid references; a slot is addressed either by its number or by a
  block position relative to the centre chunk's corner.
*/
module SurroundingChunks {
  import opened Wrappers
  import opened Coordinates
  import opened NativeGrids

  /** The slot of a position: the chunk offset `(pos >> 4) + 1` read as a base-3 number, z first. */
  function SlotIndex(pos: BlockPos): int {
    var c := AddScalar(Shr(pos, 4), 1);
    c.z * 3 * 3 + c.y * 3 + c.x
  }

  /** A position inside the centre chunk or one of its 26 neighbours: every coordinate in [-16, 32). */
  predicate InNeighbourhood(pos: BlockPos) {
    -16 <= pos.x < 32 && -16 <= pos.y < 32 && -16 <= pos.z < 32
  }

  /** The chunk offset of one coordinate in [-16, 32) is 0, 1 or 2. */
  lemma ChunkOffsetRange(v: int)
    requires -16 <= v < 32
    ensures 0 <= ShiftRight(v, 4) + 1 < 3
    ensures ShiftRight(v, 4) + 1 == (if v < 0 then 0 else if v < 16 then 1 else 2)
  {
    assert Pow2(4) == 16;
  }

  /** Inside the neighbourhood every position has a slot in 0 .. 26, and the centre chunk is slot 13. */
  lemma SlotIndexInRange(pos: BlockPos)
    requires InNeighbourhood(pos)
    ensures 0 <= SlotIndex(pos) < 27
    ensures Le(Origin, pos) && Le(pos, BlockPos(15, 15, 15)) ==> SlotIndex(pos) == 13
  {
    ChunkOffsetRange(pos.x);
    ChunkOffsetRange(pos.y);
    ChunkOffsetRange(pos.z);
  }

  /** Two positions of the neighbourhood share a slot exactly when they lie in the same chunk. */
  lemma SlotIndexInjective(a: BlockPos, b: BlockPos)
    requires InNeighbourhood(a) && InNeighbourhood(b)
    ensures SlotIndex(a) == SlotIndex(b) <==> Shr(a, 4) == Shr(b, 4)
  {
    ChunkOffsetRange(a.x);
    ChunkOffsetRange(a.y);
    ChunkOffsetRange(a.z);
    ChunkOffsetRange(b.x);
    ChunkOffsetRange(b.y);
    ChunkOffsetRange(b.z);
    var ca, cb := AddScalar(Shr(a, 4), 1), AddScalar(Shr(b, 4), 1);
    Base3Digits(ca.x, ca.y, ca.z, cb.x, cb.y, cb.z);
  }

  /** Three digits in 0 .. 2 are determined by the number they spell in base 3. */
  lemma Base3Digits(a0: int, a1: int, a2: int, b0: int, b1: int, b2: int)
    requires 0 <= a0 < 3 && 0 <= a1 < 3 && 0 <= a2 < 3
    requires 0 <= b0 < 3 && 0 <= b1 < 3 && 0 <= b2 < 3
    ensures a2 * 3 * 3 + a1 * 3 + a0 == b2 * 3 * 3 + b1 * 3 + b0 <==> a0 == b0 && a1 == b1 && a2 == b2
  {
  }

  class SurroundingChunkGrid<T> {
    /** The fields `c0` .. `c26`, in order. */
    var slots: seq<NativeGrid3D<T>>
    ghost var Repr: set<object>

    ghost predicate Valid()
      reads this, Repr
    {
      && |slots| == 27
      && (forall i :: 0 <= i < 27 ==> slots[i] in Repr && slots[i].cells in Repr && slots[i].Valid())
    }

    /** A grid whose 27 fields hold the given chunk grids. */
    constructor (grids: seq<NativeGrid3D<T>>)
      requires |grids| == 27 && forall i :: 0 <= i < 27 ==> grids[i].Valid()
      ensures Valid() && slots == grids
    {
      slots := grids;
      Repr := set i | 0 <= i < 27 :: grids[i];
      new;
      Repr := Repr + set i | 0 <= i < 27 :: grids[i].cells;
    }

    /** The int indexer's getter: an IndexOutOfRangeException outside 0 .. 26. */
    function GetSlot(index: int): (r: Result<NativeGrid3D<T>>)
      requires Valid()
      reads this, Repr
      ensures r.Ok? <==> 0 <= index < 27
      ensures r.Err? ==> r.error == IndexOutOfRange
      ensures r.Ok? ==> r.value.Valid() && r.value in Repr && r.value.cells in Repr
    {
      if 0 <= index < 27 then Ok(slots[index]) else Err(IndexOutOfRange)
    }

    /** The int indexer's setter: one field changes, or nothing does and the call fails. */
    method SetSlot(index: int, value: NativeGrid3D<T>) returns (o: Outcome)
      requires Valid() && value.Valid()
      modifies this
      ensures Valid()
      ensures o.Pass? <==> 0 <= index < 27
      ensures o.Fail? ==> o.error == IndexOutOfRange && slots == old(slots)
      ensures o.Pass? ==> slots == old(slots)[index := value]
      ensures o.Pass? ==> GetSlot(index) == Ok(value)
      ensures o.Pass? ==> forall j :: j != index ==> GetSlot(j) == old(GetSlot(j))
    {
      if !(0 <= index < 27) {
        return Fail(IndexOutOfRange);
      }
      slots := slots[index := value];
      Repr := Repr + {value, value.cells};
      return Pass;
    }

    /** The `BlockPos` indexer's getter: the slot of the position. */
    function GetChunk(pos: BlockPos): (r: Result<NativeGrid3D<T>>)
      requires Valid()
      reads this, Repr
      ensures InNeighbourhood(pos) ==> r.Ok?
    {
      if InNeighbourhood(pos) then SlotIndexInRange(pos); GetSlot(SlotIndex(pos))
      else GetSlot(SlotIndex(pos))
    }

    /** The `BlockPos` indexer's setter: sets the slot of the position. */
    method SetChunk(pos: BlockPos, value: NativeGrid3D<T>) returns (o: Outcome)
      requires Valid() && value.Valid()
      modifies this
      ensures Valid()
      ensures o.Pass? <==> 0 <= SlotIndex(pos) < 27
      ensures o.Fail? ==> o.error == IndexOutOfRange && slots == old(slots)
      ensures o.Pass? ==> slots == old(slots)[SlotIndex(pos) := value]
      ensures o.Pass? ==> GetChunk(pos) == Ok(value)
      ensures o.Pass? ==> forall q :: InNeighbourhood(pos) && InNeighbourhood(q) && Shr(q, 4) != Shr(pos, 4) ==>
        GetChunk(q) == old(GetChunk(q))
    {
      o := SetSlot(SlotIndex(pos), value);
      if o.Pass? {
        forall q | InNeighbourhood(pos) && InNeighbourhood(q) && Shr(q, 4) != Shr(pos, 4)
          ensures GetChunk(q) == old(GetChunk(q))
        {
          SlotIndexInjective(pos, q);
        }
      }
    }

    /** `GetLocalBlock`: the chunk of the position, read at the local coordinate `pos & 15`. */
    function GetLocalBlock(pos: BlockPos): (r: Result<T>)
      requires Valid()
      reads this, Repr
    {
      match GetChunk(pos)
      case Err(e) => Err(e)
      case Ok(g) => g.Get(MaskLow4(pos))
    }
  }

  /** A live, chunk-sized slot answers every local read inside the neighbourhood. */
  lemma LocalBlockOfChunkSizedSlot<T>(s: SurroundingChunkGrid<T>, pos: BlockPos)
    requires s.Valid() && InNeighbourhood(pos)
    requires s.GetChunk(pos).Ok? && !s.GetChunk(pos).value.disposed
    requires s.GetChunk(pos).value.size == BlockPos(16, 16, 16)
    ensures s.GetLocalBlock(pos).Ok?
  {
    var g := s.GetChunk(pos).value;
    GetFailures(g, MaskLow4(pos));
  }

  /** A position of the centre chunk reads slot 13 at the position itself. */
  lemma CentreBlockReadsCentreSlot<T>(s: SurroundingChunkGrid<T>, pos: BlockPos)
    requires s.Valid() && Le(Origin, pos) && Le(pos, BlockPos(15, 15, 15))
    ensures s.GetLocalBlock(pos) == s.slots[13].Get(pos)
  {
    SlotIndexInRange(pos);
    CentreIsLocal(pos);
    assert s.GetChunk(pos) == Ok(s.slots[13]);
  }

  /** A position of the centre chunk is its own local coordinate. */
  lemma CentreIsLocal(pos: BlockPos)
    requires Le(Origin, pos) && Le(pos, BlockPos(15, 15, 15))
    ensures MaskLow4(pos) == pos
  {
    assert Low4(pos.x) == pos.x && Low4(pos.y) == pos.y && Low4(pos.z) == pos.z;
  }
}
