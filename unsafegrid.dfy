/**
  The dense grid over a region (Assets/BonesCubed/Common/Native/Unsafe/UnsafeGrid3D.cs) and
  the sparse, chunked grid built from it
  (Assets/BonesCubed/Common/Native/Unsafe/UnsafeInfiniteGrid3D.cs).

  The source structs hold a raw pointer, so every copy of a grid shares one buffer; a class
  with an array field models that sharing. `zero` stands for `default(T)`, the value the
  cleared memory reads as.
*/
module UnsafeGrids {
  import opened Wrappers
  import opened Coordinates
  import opened Regions
  import opened NativeUtils

  class UnsafeGrid3D<T> {
    /** The element buffer: null before creation and after Dispose. */
    var buffer: array?<T>
    const region: Region
    const allocator: Allocator

    ghost predicate Valid()
      reads this
    {
      Proper(region) && (buffer != null ==> buffer.Length == Regions.Length(region))
    }

    /** The allocation half of the constructor, once its argument checks have passed. */
    constructor Allocate(region: Region, allocator: Allocator, zero: T)
      requires Proper(region)
      ensures Valid() && this.region == region && this.allocator == allocator
      ensures buffer != null && fresh(buffer)
      ensures forall i :: 0 <= i < buffer.Length ==> buffer[i] == zero
    {
      this.region := region;
      this.allocator := allocator;
      buffer := new T[Regions.Length(region)](_ => zero);
    }

    /**
      `new UnsafeGrid3D<T>(region, allocator)`: an ArgumentException for an allocator that is
      not Temp, TempJob or Persistent, or for a size that is not positive on every axis;
      otherwise a created grid whose cells all read as `zero`.
    */
    static method Create(region: Region, allocator: Allocator, zero: T) returns (r: Result<UnsafeGrid3D<T>>)
      ensures r.Ok? <==> UsableAllocator(allocator) && Proper(region)
      ensures r.Err? ==> r.error == InvalidArgument
      ensures r.Ok? ==> fresh(r.value) && fresh(r.value.buffer) && r.value.Valid()
      ensures r.Ok? ==> r.value.IsCreated() && r.value.region == region && r.value.allocator == allocator
      ensures r.Ok? ==> forall i :: 0 <= i < r.value.Length() ==> r.value.GetElementAt(i) == Ok(zero)
      ensures r.Ok? ==> forall p :: Contains(region, p) ==> r.value.GetElement(p) == Ok(zero)
    {
      if !UsableAllocator(allocator) {
        return Err(InvalidArgument);
      }
      if region.size.x <= 0 || region.size.y <= 0 || region.size.z <= 0 {
        return Err(InvalidArgument);
      }
      var g := new UnsafeGrid3D.Allocate(region, allocator, zero);
      forall p | Contains(region, p)
        ensures g.GetElement(p) == Ok(zero)
      {
        IndexFromPositionInRange(region, p);
      }
      return Ok(g);
    }

    /** `Length`: the region's cell count. */
    function Length(): int
      reads this
    {
      Regions.Length(region)
    }

    /** `IsCreated`: the buffer pointer is not null. */
    predicate IsCreated()
      reads this
    {
      buffer != null
    }

    /** `GetElement(int index)`. */
    function GetElementAt(index: int): Result<T>
      requires Valid()
      reads this, buffer
    {
      match ValidateAllocation(IsCreated())
      case Fail(e) => Err(e)
      case Pass =>
        match ValidateIndex(index, Length())
        case Fail(e) => Err(e)
        case Pass => Ok(buffer[index])
    }

    /** `GetElement(int3 pos)`: the cell at the position's index in the region. */
    function GetElement(pos: BlockPos): Result<T>
      requires Valid()
      reads this, buffer
    {
      match ValidateAllocation(IsCreated())
      case Fail(e) => Err(e)
      case Pass => CellAt(region, buffer[..], pos)
    }

    /** `SetElement(int index, T value)`: one cell changes, or nothing does and the call fails. */
    method SetElementAt(index: int, value: T) returns (o: Outcome)
      requires Valid()
      modifies buffer
      ensures Valid() && buffer == old(buffer)
      ensures o == (if !IsCreated() then Fail(InvalidOperation) else ValidateIndex(index, Length()))
      ensures o.Pass? ==> buffer[..] == old(buffer[..])[index := value]
      ensures o.Pass? ==> GetElementAt(index) == Ok(value)
      ensures o.Pass? ==> forall j :: j != index ==> GetElementAt(j) == old(GetElementAt(j))
      ensures o.Fail? ==> buffer == null || buffer[..] == old(buffer[..])
    {
      o := ValidateAllocation(IsCreated());
      if o.Fail? {
        return;
      }
      o := ValidateIndex(index, Length());
      if o.Fail? {
        return;
      }
      buffer[index] := value;
    }

    /** `SetElement(int3 pos, T value)`: the cell at the position's index changes, and no other. */
    method SetElement(pos: BlockPos, value: T) returns (o: Outcome)
      requires Valid()
      modifies buffer
      ensures Valid() && buffer == old(buffer)
      ensures o == (if !IsCreated() then Fail(InvalidOperation) else ValidatePosition(region, pos))
      ensures o.Pass? ==> IndexFromPosition(region, pos).Ok? && 0 <= IndexFromPosition(region, pos).value < buffer.Length
      ensures o.Pass? ==> buffer[..] == old(buffer[..])[IndexFromPosition(region, pos).value := value]
      ensures o.Pass? ==> GetElement(pos) == Ok(value)
      ensures o.Pass? ==> forall q :: q != pos ==> GetElement(q) == old(GetElement(q))
      ensures o.Fail? ==> buffer == null || buffer[..] == old(buffer[..])
    {
      o := ValidateAllocation(IsCreated());
      if o.Fail? {
        return;
      }
      o := ValidatePosition(region, pos);
      if o.Fail? {
        return;
      }
      IndexFromPositionInRange(region, pos);
      var index := IndexFromPosition(region, pos).value;
      buffer[index] := value;
      forall q
        ensures CellAt(region, buffer[..], q) == if q == pos then Ok(value) else CellAt(region, old(buffer[..]), q)
      {
        WriteCellFrame(region, old(buffer[..]), pos, value, q);
      }
    }

    /** `Dispose`: frees the buffer once; disposing again does nothing. */
    method Dispose()
      requires Valid()
      modifies this
      ensures Valid() && buffer == null && !IsCreated()
    {
      if !IsCreated() {
        return;
      }
      buffer := null;
    }

    /** Position access is index access at the region's index of the position. */
    lemma PositionAccessIsIndexAccess(pos: BlockPos)
      requires Valid() && IsCreated() && Contains(region, pos)
      ensures IndexFromPosition(region, pos).Ok?
      ensures GetElement(pos) == GetElementAt(IndexFromPosition(region, pos).value)
    {
      IndexFromPositionInRange(region, pos);
    }

    /** Every access to a grid that is not created is an InvalidOperationException. */
    lemma UncreatedAccessFails(index: int, pos: BlockPos)
      requires Valid() && !IsCreated()
      ensures GetElementAt(index) == Err(InvalidOperation)
      ensures GetElement(pos) == Err(InvalidOperation)
    {
    }
  }

  /**
    The cell of a position in a region-shaped buffer: an IndexOutOfRangeException outside the
    region, otherwise the element at the region's index of the position.
  */
  function CellAt<T>(region: Region, cells: seq<T>, pos: BlockPos): Result<T>
    requires Proper(region) && |cells| == Regions.Length(region)
  {
    match ValidatePosition(region, pos)
    case Fail(e) => Err(e)
    case Pass =>
      IndexFromPositionInRange(region, pos);
      Ok(cells[IndexFromPosition(region, pos).value])
  }

  /** Writing the cell of one position changes what that position reads, and nothing else. */
  lemma WriteCellFrame<T>(region: Region, cells: seq<T>, pos: BlockPos, value: T, q: BlockPos)
    requires Proper(region) && |cells| == Regions.Length(region) && Contains(region, pos)
    ensures IndexFromPosition(region, pos).Ok? && 0 <= IndexFromPosition(region, pos).value < |cells|
    ensures var cells' := cells[IndexFromPosition(region, pos).value := value];
      CellAt(region, cells', q) == if q == pos then Ok(value) else CellAt(region, cells, q)
  {
    IndexFromPositionInRange(region, pos);
    var i := IndexFromPosition(region, pos).value;
    var cells' := cells[i := value];
    if Contains(region, q) {
      IndexFromPositionInRange(region, q);
      IndexFromPositionInjective(region, q, pos);
      var j := IndexFromPosition(region, q).value;
      assert CellAt(region, cells', q) == Ok(cells'[j]);
      assert CellAt(region, cells, q) == Ok(cells[j]);
    }
  }

  /** The region of the chunk with a given key: 16 cells on every axis starting at `key << 4`. */
  function ChunkRegion(key: BlockPos): (r: Region)
    ensures Proper(r)
  {
    Region(Shl(key, 4), BlockPos(16, 16, 16))
  }

  /** The chunk region of a position's key contains the position. */
  lemma ChunkRegionContains(pos: BlockPos)
    ensures Contains(ChunkRegion(Shr(pos, 4)), pos)
  {
    ChunkOriginBounds(pos);
  }

  class UnsafeInfiniteGrid3D<T> {
    /** The hash map from chunk key `pos >> 4` to the chunk's grid. */
    var chunks: map<BlockPos, UnsafeGrid3D<T>>
    /** The hash map's `IsCreated`. */
    var created: bool
    const allocator: Allocator
    /** `default(T)`. */
    const zero: T
    ghost var Repr: set<object>

    ghost predicate Valid()
      reads this, Repr
    {
      && this in Repr
      && (created ==> UsableAllocator(allocator))
      && (!created ==> chunks == map[])
      && (forall k :: k in chunks ==>
            && chunks[k] in Repr
            && chunks[k].Valid()
            && chunks[k].buffer != null
            && chunks[k].buffer in Repr
            && chunks[k].region == ChunkRegion(k))
      && (forall k1, k2 :: k1 in chunks && k2 in chunks && k1 != k2 ==>
            chunks[k1] != chunks[k2] && chunks[k1].buffer != chunks[k2].buffer)
    }

    /** The allocation half of the constructor, once its allocator check has passed. */
    constructor Allocate(allocator: Allocator, zero: T)
      requires UsableAllocator(allocator)
      ensures Valid() && fresh(Repr) && created && chunks == map[]
      ensures this.allocator == allocator && this.zero == zero
    {
      chunks := map[];
      created := true;
      this.allocator := allocator;
      this.zero := zero;
      Repr := {this};
    }

    /** `new UnsafeInfiniteGrid3D<T>(allocator)`: an ArgumentException unless Temp, TempJob or Persistent. */
    static method Create(allocator: Allocator, zero: T) returns (r: Result<UnsafeInfiniteGrid3D<T>>)
      ensures r.Ok? <==> UsableAllocator(allocator)
      ensures r.Err? ==> r.error == InvalidArgument
      ensures r.Ok? ==> fresh(r.value.Repr) && r.value.Valid() && r.value.created
      ensures r.Ok? ==> r.value.chunks == map[] && r.value.zero == zero
      ensures r.Ok? ==> forall p :: r.value.GetElement(p) == Ok(zero)
    {
      if !UsableAllocator(allocator) {
        return Err(InvalidArgument);
      }
      var g := new UnsafeInfiniteGrid3D.Allocate(allocator, zero);
      return Ok(g);
    }

    /**
      `GetElement(pos)`: the default value when the position's chunk is absent, otherwise the
      chunk's cell at the position (world coordinates, which the chunk's region contains).
    */
    function GetElement(pos: BlockPos): Result<T>
      requires Valid()
      reads this, Repr
    {
      match ValidateAllocation(created)
      case Fail(e) => Err(e)
      case Pass =>
        var key := Shr(pos, 4);
        if key !in chunks then Ok(zero) else chunks[key].GetElement(pos)
    }

    /** Reading a created grid never fails. */
    lemma GetElementSucceeds(pos: BlockPos)
      requires Valid() && created
      ensures GetElement(pos).Ok?
    {
      ChunkRegionContains(pos);
    }

    /**
      `SetElement(pos, value)`: creates the chunk `Region((pos >> 4) << 4, 16)` if it is
      absent, then writes the one cell; every other position reads as before.
    */
    method SetElement(pos: BlockPos, value: T) returns (o: Outcome)
      requires Valid()
      modifies Repr
      ensures Valid() && fresh(Repr - old(Repr))
      ensures created == old(created)
      ensures o == ValidateAllocation(old(created))
      ensures o.Pass? ==> chunks.Keys == old(chunks.Keys) + {Shr(pos, 4)}
      ensures o.Fail? ==> chunks == old(chunks)
      ensures forall k :: k in old(chunks) ==> k in chunks && chunks[k] == old(chunks[k])
      ensures o.Pass? ==> GetElement(pos) == Ok(value)
      ensures o.Pass? ==> forall q :: q != pos ==> GetElement(q) == old(GetElement(q))
    {
      o := ValidateAllocation(created);
      if o.Fail? {
        return;
      }
      var key := Shr(pos, 4);
      ChunkRegionContains(pos);
      if key !in chunks {
        AddChunk(key);
      }
      label BeforeWrite:
      var grid := chunks[key];
      assert forall k :: k in chunks && k != key ==> chunks[k].buffer != grid.buffer;
      var written := grid.SetElement(pos, value);
      assert Valid();
      forall q | q != pos
        ensures GetElement(q) == old@BeforeWrite(GetElement(q))
      {
        var kq := Shr(q, 4);
        if kq == key {
          ChunkRegionContains(q);
          assert grid.GetElement(q) == old@BeforeWrite(grid.GetElement(q));
        } else if kq in chunks {
          var other := chunks[kq];
          assert other.buffer != grid.buffer;
          assert other.GetElement(q) == old@BeforeWrite(other.GetElement(q));
        }
      }
    }

    /** The chunk creation in `SetElement`: an all-default chunk for `key`, so every position reads as before. */
    method AddChunk(key: BlockPos)
      requires Valid() && created && key !in chunks
      modifies this
      ensures Valid() && fresh(Repr - old(Repr)) && created == old(created)
      ensures chunks.Keys == old(chunks.Keys) + {key}
      ensures forall k :: k in old(chunks) ==> chunks[k] == old(chunks[k])
      ensures forall q :: GetElement(q) == old(GetElement(q))
    {
      var r := UnsafeGrid3D.Create(ChunkRegion(key), allocator, zero);
      var chunk := r.value;
      chunks := chunks[key := chunk];
      Repr := Repr + {chunk, chunk.buffer};
      forall q
        ensures GetElement(q) == old(GetElement(q))
      {
        if Shr(q, 4) == key {
          ChunkRegionContains(q);
        }
      }
    }

    /** `Dispose`: disposes every stored chunk, then the map; a no-op when not created. */
    method Dispose()
      requires Valid()
      modifies Repr
      ensures Valid() && !created && chunks == map[]
      ensures !old(created) ==> Repr == old(Repr)
      ensures old(created) ==> forall k :: k in old(chunks) ==> !old(chunks[k]).IsCreated()
    {
      if !created {
        return;
      }
      var pending := chunks.Keys;
      while pending != {}
        invariant pending <= chunks.Keys && chunks == old(chunks) && Repr == old(Repr)
        invariant forall k :: k in chunks ==> chunks[k] in Repr && chunks[k].Valid()
        invariant forall k :: k in pending ==> chunks[k].buffer != null
        invariant forall k :: k in chunks && k !in pending ==> chunks[k].buffer == null
        decreases pending
      {
        var k :| k in pending;
        chunks[k].Dispose();
        pending := pending - {k};
      }
      chunks := map[];
      created := false;
    }
  }

  /** A position whose chunk is absent reads as the default value. */
  lemma AbsentChunkReadsDefault<T>(g: UnsafeInfiniteGrid3D<T>, pos: BlockPos)
    requires g.Valid() && g.created && Shr(pos, 4) !in g.chunks
    ensures g.GetElement(pos) == Ok(g.zero)
  {
  }
}
