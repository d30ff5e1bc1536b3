/**
  The array-backed grid of a given size with its corner at the origin
  (Assets/BonesCubed/Common/Native/NativeGrid3D.cs). The safety checks compiled under
  ENABLE_UNITY_COLLECTIONS_CHECKS are modelled as enabled: an access to a disposed grid is an
  InvalidOperationException, as the released safety handle reports it.
*/
module NativeGrids {
  import opened Wrappers
  import opened Coordinates
  import opened Regions
  import opened NativeUtils
  import opened UnsafeGrids

  /** The cell index of a position: `z * sx * sy + y * sx + x`. */
  function GridIndex(pos: BlockPos, size: BlockPos): int {
    pos.z * size.x * size.y + pos.y * size.x + pos.x
  }

  /** The cells of a grid of a given size, as a region with its corner at the origin. */
  function GridRegion(size: BlockPos): Region {
    Region(Origin, size)
  }

  /** The indexer's test `pos >= (0, 0, 0) && pos < size`, with the all-axis comparisons. */
  predicate InBounds(pos: BlockPos, size: BlockPos) {
    Ge(pos, Origin) && Lt(pos, size)
  }

  /** The bounds test is the region's `Contains`, and the grid index is the region's index. */
  lemma GridIndexIsRegionIndex(pos: BlockPos, size: BlockPos)
    ensures InBounds(pos, size) <==> Contains(GridRegion(size), pos)
    ensures InBounds(pos, size) ==> IndexFromPosition(GridRegion(size), pos) == Ok(GridIndex(pos, size))
    ensures InBounds(pos, size) ==> 0 <= GridIndex(pos, size) < Regions.Length(GridRegion(size))
  {
    assert Sub(pos, Origin) == pos;
    IndexFromPositionInRange(GridRegion(size), pos);
  }

  /** Two positions inside the bounds share a cell index only when they are equal. */
  lemma GridIndexInjective(a: BlockPos, b: BlockPos, size: BlockPos)
    requires InBounds(a, size) && InBounds(b, size)
    ensures GridIndex(a, size) == GridIndex(b, size) <==> a == b
  {
    GridIndexIsRegionIndex(a, size);
    GridIndexIsRegionIndex(b, size);
    IndexFromPositionInjective(GridRegion(size), a, b);
  }

  class NativeGrid3D<T> {
    /** The backing NativeArray. */
    var cells: array<T>
    const size: BlockPos
    const allocator: Allocator
    /** Whether `Dispose` has released the array and the safety handle. */
    var disposed: bool

    ghost predicate Valid()
      reads this
    {
      Proper(GridRegion(size)) && cells.Length == Regions.Length(GridRegion(size))
    }

    /** The allocation half of the constructor, once its argument checks have passed. */
    constructor Allocate(size: BlockPos, allocator: Allocator, zero: T)
      requires size.x > 0 && size.y > 0 && size.z > 0
      ensures Valid() && !disposed && this.size == size && this.allocator == allocator
      ensures fresh(cells) && cells.Length == size.x * size.y * size.z
      ensures forall i :: 0 <= i < cells.Length ==> cells[i] == zero
    {
      this.size := size;
      this.allocator := allocator;
      cells := new T[size.x * size.y * size.z](_ => zero);
      disposed := false;
    }

    /**
      `new NativeGrid3D<T>(size, allocator)`: an ArgumentException for an allocator that is not
      Temp, TempJob or Persistent, or for a size that is not positive on every axis; otherwise
      a grid of `size.x * size.y * size.z` cells that all read as `zero`.
    */
    static method Create(size: BlockPos, allocator: Allocator, zero: T) returns (r: Result<NativeGrid3D<T>>)
      ensures r.Ok? <==> UsableAllocator(allocator) && size.x > 0 && size.y > 0 && size.z > 0
      ensures r.Err? ==> r.error == InvalidArgument
      ensures r.Ok? ==> fresh(r.value) && fresh(r.value.cells) && r.value.Valid() && !r.value.disposed
      ensures r.Ok? ==> r.value.Size() == size && r.value.cells.Length == size.x * size.y * size.z
      ensures r.Ok? ==> forall p :: InBounds(p, size) ==> r.value.Get(p) == Ok(zero)
    {
      if !UsableAllocator(allocator) {
        return Err(InvalidArgument);
      }
      if size.x <= 0 || size.y <= 0 || size.z <= 0 {
        return Err(InvalidArgument);
      }
      var g := new NativeGrid3D.Allocate(size, allocator, zero);
      forall p | InBounds(p, size)
        ensures g.Get(p) == Ok(zero)
      {
        GridIndexIsRegionIndex(p, size);
      }
      return Ok(g);
    }

    /** `Size`: the size given at construction. */
    function Size(): BlockPos
      reads this
    {
      size
    }

    /** The indexer's getter. */
    function Get(pos: BlockPos): Result<T>
      requires Valid()
      reads this, cells
    {
      if disposed then Err(InvalidOperation)
      else if !(Ge(pos, Origin) && Lt(pos, size)) then Err(IndexOutOfRange)
      else
        GridIndexIsRegionIndex(pos, size);
        Ok(cells[GridIndex(pos, size)])
    }

    /** The indexer's setter: one cell changes, or nothing does and the call fails. */
    method Set(pos: BlockPos, value: T) returns (o: Outcome)
      requires Valid()
      modifies cells
      ensures Valid()
      ensures o == (if disposed then Fail(InvalidOperation) else if InBounds(pos, size) then Pass else Fail(IndexOutOfRange))
      ensures o.Pass? ==> 0 <= GridIndex(pos, size) < cells.Length
      ensures o.Pass? ==> cells[..] == old(cells[..])[GridIndex(pos, size) := value]
      ensures o.Fail? ==> cells[..] == old(cells[..])
      ensures o.Pass? ==> forall q :: Get(q) == if q == pos then Ok(value) else old(Get(q))
    {
      if disposed {
        return Fail(InvalidOperation);
      }
      if !(Ge(pos, Origin) && Lt(pos, size)) {
        return Fail(IndexOutOfRange);
      }
      GridIndexIsRegionIndex(pos, size);
      cells[GridIndex(pos, size)] := value;
      forall q
        ensures Get(q) == if q == pos then Ok(value) else old(Get(q))
      {
        GetIsRegionCell(q);
        WriteCellFrame(GridRegion(size), old(cells[..]), pos, value, q);
      }
      o := Pass;
    }

    /** A live grid reads each position as the region cell of that position. */
    lemma GetIsRegionCell(pos: BlockPos)
      requires Valid() && !disposed
      ensures Get(pos) == CellAt(GridRegion(size), cells[..], pos)
    {
      GridIndexIsRegionIndex(pos, size);
    }

    /** `Dispose`: releases the array; disposing twice is an InvalidOperationException. */
    method Dispose() returns (o: Outcome)
      modifies this
      ensures disposed && cells == old(cells)
      ensures o == (if old(disposed) then Fail(InvalidOperation) else Pass)
    {
      if disposed {
        return Fail(InvalidOperation);
      }
      disposed := true;
      return Pass;
    }
  }

  /** Every access to a disposed grid fails, and only out-of-bounds accesses to a live grid do. */
  lemma GetFailures<T>(g: NativeGrid3D<T>, pos: BlockPos)
    requires g.Valid()
    ensures g.Get(pos).Err? <==> g.disposed || !InBounds(pos, g.size)
    ensures g.disposed ==> g.Get(pos) == Err(InvalidOperation)
    ensures !g.disposed && !InBounds(pos, g.size) ==> g.Get(pos) == Err(IndexOutOfRange)
  {
  }
}

/**
  The older grid over a raw, zero-cleared buffer (Common/Native/NativeGrid3D.cs). Its bounds
  guard `pos < (0, 0, 0) || pos >= size` uses the all-axis comparisons, so it rejects a
  position only when every coordinate is negative or every coordinate reaches the size. A
  position it lets through is read or written at its computed index without a further check;
  an index outside the buffer is memory the model does not hold, reported as `UnsafeAccess`.
*/
module LegacyNativeGrids {
  import opened Wrappers
  import opened Coordinates
  import opened Regions
  import opened NativeUtils
  import opened NativeGrids
  import IntMath

  /** The guard as written: it throws exactly when this holds. */
  predicate GuardRejects(pos: BlockPos, size: BlockPos) {
    Lt(pos, Origin) || Ge(pos, size)
  }

  class NativeGrid3D<T> {
    /** The Malloc'd buffer of `size.x * size.y * size.z` elements. */
    var buffer: array<T>
    const size: BlockPos
    const allocator: Allocator
    var disposed: bool

    ghost predicate Valid()
      reads this
    {
      Proper(GridRegion(size)) && buffer.Length == Regions.Length(GridRegion(size))
    }

    /** The allocation half of the constructor: Malloc followed by MemClear. */
    constructor Allocate(size: BlockPos, allocator: Allocator, zero: T)
      requires size.x > 0 && size.y > 0 && size.z > 0
      ensures Valid() && !disposed && this.size == size && this.allocator == allocator
      ensures fresh(buffer) && buffer.Length == size.x * size.y * size.z
      ensures forall i :: 0 <= i < buffer.Length ==> buffer[i] == zero
    {
      this.size := size;
      this.allocator := allocator;
      buffer := new T[size.x * size.y * size.z](_ => zero);
      disposed := false;
    }

    /**
      `new NativeGrid3D<T>(size, allocator)`: an ArgumentException for an unusable allocator or
      a size that is not positive on every axis; otherwise every cell holds `zero`.
    */
    static method Create(size: BlockPos, allocator: Allocator, zero: T) returns (r: Result<NativeGrid3D<T>>)
      ensures r.Ok? <==> UsableAllocator(allocator) && size.x > 0 && size.y > 0 && size.z > 0
      ensures r.Err? ==> r.error == InvalidArgument
      ensures r.Ok? ==> fresh(r.value) && fresh(r.value.buffer) && r.value.Valid() && !r.value.disposed
      ensures r.Ok? ==> r.value.size == size && r.value.buffer.Length == size.x * size.y * size.z
      ensures r.Ok? ==> forall i :: 0 <= i < r.value.buffer.Length ==> r.value.buffer[i] == zero
    {
      if !UsableAllocator(allocator) {
        return Err(InvalidArgument);
      }
      if size.x <= 0 || size.y <= 0 || size.z <= 0 {
        return Err(InvalidArgument);
      }
      var g := new NativeGrid3D.Allocate(size, allocator, zero);
      return Ok(g);
    }

    /** The indexer's getter, as written. */
    function Get(pos: BlockPos): Result<T>
      requires Valid()
      reads this, buffer
    {
      if disposed then Err(InvalidOperation)
      else if Lt(pos, Origin) || Ge(pos, size) then
        Err(IndexOutOfRange)
      else
        var index := GridIndex(pos, size);
        if 0 <= index < buffer.Length then Ok(buffer[index]) else Err(UnsafeAccess)
    }

    /** The indexer's setter, as written: the cell at the computed index changes. */
    method Set(pos: BlockPos, value: T) returns (o: Outcome)
      requires Valid()
      modifies buffer
      ensures Valid()
      ensures o.Pass? <==> !disposed && !GuardRejects(pos, size) && 0 <= GridIndex(pos, size) < buffer.Length
      ensures o.Fail? ==> o.error == (if disposed then InvalidOperation
                                      else if GuardRejects(pos, size) then IndexOutOfRange
                                      else UnsafeAccess)
      ensures o.Pass? ==> buffer[..] == old(buffer[..])[GridIndex(pos, size) := value]
      ensures o.Fail? ==> buffer[..] == old(buffer[..])
    {
      if disposed {
        return Fail(InvalidOperation);
      }
      if Lt(pos, Origin) || Ge(pos, size) {
        return Fail(IndexOutOfRange);
      }
      var index := GridIndex(pos, size);
      if !(0 <= index < buffer.Length) {
        return Fail(UnsafeAccess);
      }
      buffer[index] := value;
      return Pass;
    }

    /** `Dispose`: releases the safety handle and frees the buffer; a second call throws. */
    method Dispose() returns (o: Outcome)
      modifies this
      ensures disposed && buffer == old(buffer)
      ensures o == (if old(disposed) then Fail(InvalidOperation) else Pass)
    {
      if disposed {
        return Fail(InvalidOperation);
      }
      disposed := true;
      return Pass;
    }
  }

  /** The guard as written throws only when all three coordinates are out on the same side. */
  lemma GuardRejectsOnlyAllAxis(pos: BlockPos, size: BlockPos)
    ensures GuardRejects(pos, size) <==>
      (pos.x < 0 && pos.y < 0 && pos.z < 0) || (pos.x >= size.x && pos.y >= size.y && pos.z >= size.z)
    ensures InBounds(pos, size) ==> !GuardRejects(pos, size)
  {
  }

  /** Inside the bounds the older grid behaves like the newer one: set then get, other cells kept. */
  lemma InBoundsAccess<T>(g: NativeGrid3D<T>, pos: BlockPos, q: BlockPos, value: T)
    requires g.Valid() && !g.disposed && InBounds(pos, g.size) && InBounds(q, g.size)
    ensures 0 <= GridIndex(pos, g.size) < g.buffer.Length
    ensures g.Get(pos) == Ok(g.buffer[GridIndex(pos, g.size)])
    ensures q != pos ==> GridIndex(q, g.size) != GridIndex(pos, g.size)
  {
    GridIndexIsRegionIndex(pos, g.size);
    GridIndexInjective(pos, q, g.size);
  }

  /** The guard lets (-1, 0, 0) through, and its index -1 lies before the buffer. */
  lemma GuardLetsNegativeThrough<T>(g: NativeGrid3D<T>)
    requires g.Valid() && !g.disposed
    ensures !InBounds(BlockPos(-1, 0, 0), g.size) && !GuardRejects(BlockPos(-1, 0, 0), g.size)
    ensures g.Get(BlockPos(-1, 0, 0)) == Err(UnsafeAccess)
  {
    assert 0 * g.size.x * g.size.y == 0 && 0 * g.size.x == 0;
  }

  /** The guard lets (size.x, 0, 0) through, and when size.y > 1 it reads the cell of (0, 1, 0). */
  lemma GuardLetsRowOverflowThrough<T>(g: NativeGrid3D<T>)
    requires g.Valid() && !g.disposed && g.size.y > 1
    ensures !InBounds(BlockPos(g.size.x, 0, 0), g.size) && !GuardRejects(BlockPos(g.size.x, 0, 0), g.size)
    ensures InBounds(BlockPos(0, 1, 0), g.size)
    ensures g.Get(BlockPos(g.size.x, 0, 0)).Ok? && g.Get(BlockPos(g.size.x, 0, 0)) == g.Get(BlockPos(0, 1, 0))
  {
    var p, q := BlockPos(g.size.x, 0, 0), BlockPos(0, 1, 0);
    RowOverflowIndex(g.size);
    RowOverflowInBuffer(g.size.x, g.size.y, g.size.z);
    assert 0 <= g.size.x < g.buffer.Length;
    assert g.Get(q) == Ok(g.buffer[g.size.x]);
    assert !GuardRejects(p, g.size);
    assert g.Get(p) == Ok(g.buffer[g.size.x]);
  }

  /** With more than one row, the first cell of row 1 lies inside the buffer. */
  lemma RowOverflowInBuffer(sx: int, sy: int, sz: int)
    requires sx > 0 && sy > 1 && sz > 0
    ensures sx < sx * sy * sz
  {
    IntMath.MulMonotone(sy, 2, sx);
    IntMath.MulMonotone(sz, 1, sx * sy);
  }

  /** One past the end of row 0 has the index of the first cell of row 1. */
  lemma RowOverflowIndex(size: BlockPos)
    ensures GridIndex(BlockPos(size.x, 0, 0), size) == GridIndex(BlockPos(0, 1, 0), size) == size.x
  {
    assert 0 * size.x * size.y == 0 && 0 * size.x == 0 && 1 * size.x == size.x;
  }
}
