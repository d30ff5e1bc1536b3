# BonesCubed core in Dafny

A model of the meshing core of the BonesCubed voxel engine and of the integer, grid and
list layers beneath it, with proofs about each part. One Dafny module stands for one source
file (or for a pair of revisions of one file):

- **Coordinates** (`coordinates.dfy`, `directions.dfy`, `region.dfy`, `cuboid.dfy`,
  `intmath.dfy`): `BlockPos` arithmetic, shifts and masks, the all-axis comparisons, the local
  chunk index, the two direction tables, the `Region` index/position bijection and the cuboid
  iterator's x-z-y order. C#'s `>> 4` is floor division by 16, `& 15` the Euclidean
  remainder, and `/` and `%` on `int` truncate, as written out in `IntMath`.
- **Validation and containers** (`nativeutils.dfy`, `unsafegrid.dfy`, `nativegrid.dfy`,
  `surrounding.dfy`, `containerlist.dfy`, `nativemesh.dfy`): the index, position and
  allocation validators; the dense grid over a region and the sparse chunked grid built from
  it, which creates a chunk on first write and reads `default(T)` where no chunk exists; both
  revisions of the array grid, one of which has a guard that uses the all-axis comparisons;
  the 27-slot surrounding chunk grid; the growable container list; and the mesh made of
  submeshes, with the offsets of its submesh descriptors. Each exception these containers
  throw is an error outcome.
- **Block models** (`segments.dfy`, `blockmodel.dfy`): the seven occluding-segment flags, the
  baked block model with its tagged segments, and the loader. The loader groups triangles by
  segment in flag order and removes duplicate vertices with a backward scan.
- **Occlusion and meshing** (`occlusion.dfy`, `regionmesh.dfy`, `chunkloops.dfy`,
  `meshbuffer.dfy`, `chunkmesh.dfy`, `meshutilities.dfy`, `solidchunkmesh.dfy`,
  `blockmeshdata.dfy`):
  - the per-voxel visibility rule;
  - the region mesher, which assigns submeshes by first appearance of a material and rebases
    16-bit indices;
  - the two chunk meshers;
  - the quad and cube emitters;
  - the solid-block byte.
- **Block and world metadata** (`lists.dfy`, `blocklist.dfy`, `runtimemodel.dfy`,
  `storage.dfy`, `chunkworld.dfy`): the block list's duplicate-free model and material tables
  and its block ids; the runtime block model's mesh table; the managed block, chunk and world
  storage; and the newer world's chunk map.

Four of the defects listed under "Findings" are corrected in the members the rest of the model
uses. Each has an as-written member beside it:
- The container list's growth copies `Count * SizeOf<T>()` bytes
  (`ContainerLists.NativeContainerList.Grow`, `SpawnNewInstance`); the copy of `Count` bytes
  is `ContainerLists.AsWrittenGrowthLosesLastElement`.
- `NativeMesh.ApplyToMesh` writes descriptor s to submesh slot s; the writes to slot 0 are
  `NativeMeshes.AsWrittenDescriptorsLoseSubmeshes`.
- The managed chunk's constructor fills slot `p.z * 256 + p.y * 16 + p.x`
  (`Storage.PlaceBlock`, `FillColumn`, `FillSlab`, `Storage.Chunk.constructor`); the fill at
  `p.z * 256 + p.y * 16 + p.z` is `Storage.AsWrittenFill`.
- `World.GetBlock` reads the chunk at the position's local offset (`Storage.World.GetBlock`);
  the read at the world position is `Storage.World.GetBlockAsWritten`.

A fifth defect, the loader's swapped z faces, is stated on the table of normals the face
tests compare with: `BlockModelLoading.LoaderFaceNormal` as written and
`BlockModelLoading.IntendedFaceNormal` corrected. The loader itself keeps its face tests
abstract, so the rest of the model depends on neither table.

Two behaviours are modelled as written, and lemmas put them next to their alternatives:
- The region mesher copies every segment of a visible voxel's model, whatever that voxel's
  visibility flags say. `RegionMeshes.CulledCopiesVisibleSegments` states what a loop that
  skips hidden flags would draw.
- The job-based chunk mesher appends each model index to the chunk mesh without adding the
  chunk's vertex count. `ChunkMeshes.AsWrittenIndicesNameEarlierVertices` shows that these indices name vertices already in the buffer, and `ChunkMeshes.RebasedIndicesNameOwnVertices` shows that shifted indices would name the voxel's own vertices.

Objects whose fields the engine updates in place are classes. Examples are the grids, the
container list, the native mesh, the block model, the mesh buffers, the block list and the
storage classes. Their methods are proved against specification functions. Pure rules are
functions with lemmas.

## Model

| member | source | states |
|---|---|---|
| Coordinates.Index | Common/DataTypes/BlockPos.cs:25 | the local chunk index lies in 0 .. 4095 for every position, negative coordinates included |
| Coordinates.Min | Common/DataTypes/BlockPos.cs:86-89 | the axis-wise minimum is below both arguments under the all-axis `<=`, and above every common lower bound |
| Coordinates.Max | Common/DataTypes/BlockPos.cs:99-102 | the axis-wise maximum is above both arguments under the all-axis `<=`, and below every common upper bound |
| Coordinates.ModShift | Common/DataTypes/BlockPos.cs:25 | `v & 15` is unchanged by adding any multiple of 16 |
| Coordinates.IndexPeriodic | Common/DataTypes/BlockPos.cs:25 | `Index` is unchanged by adding 16·k to any axis |
| Coordinates.IndexInjectiveOnLocal | Common/DataTypes/BlockPos.cs:25 | equal indices mean equal local offsets `pos & 15` |
| Coordinates.ShiftMaskDecomposition | Common/DataTypes/BlockPos.cs:111-138 | `((p >> 4) << 4) + (p & 15) == p` on every axis, `(p >> 4) << 4` is `p & ~15`, and `p & 15` lies in 0 .. 15 |
| Coordinates.ChunkOriginBounds | Common/DataTypes/BlockPos.cs:123-138 | a position lies in the 16-cube starting at `(p >> 4) << 4` under the all-axis comparisons |
| Coordinates.MinMaxBounds | Common/DataTypes/BlockPos.cs:86-102 | `Min(a,b) <= a`, `Min(a,b) <= b`, `a <= Max(a,b)`, `b <= Max(a,b)` and `Min <= Max` |
| Coordinates.ComparisonsArePartial | Common/DataTypes/BlockPos.cs:221-263 | there are positions for which none of `<`, `>`, `<=`, `>=` holds, so `!(a < b)` does not give `a >= b` |
| Coordinates.ComparisonDuality | Common/DataTypes/BlockPos.cs:221-263 | `<`/`>` and `<=`/`>=` are converses, strict implies weak and unequal, and `<=` both ways is `==` |
| Coordinates.EqualityAgreement | Common/DataTypes/BlockPos.cs:56-62 | `==` is coordinate-wise equality, `!=` is its negation, and `Equals` agrees with `==` and rejects a non-position |
| Directions.IndexOf | Common/DataTypes/Direction.cs:12-42 | every direction has an index in 0 .. 5 |
| Directions.FromIndex | Common/DataTypes/Direction.cs:109-121 | succeeds exactly for 0 .. 5, returning the direction with that index; any other index is an `ArgumentException` |
| Directions.IndexRoundTrip | Common/DataTypes/Direction.cs:49-121 | `FromIndex(d.Index) == d`; `All` lists the six directions once each, with `All[i] == FromIndex(i)` |
| Directions.OppositeInvolution | Common/DataTypes/Direction.cs:12-88 | `Opposite` is an involution without fixed points, the opposite's vector is the negated vector, and every vector has exactly one non-zero coordinate, ±1 |
| Directions.OffsetComposes | Common/DataTypes/BlockPos.cs:49-52 | offsets by n and then m units add up to n + m, one unit is `pos + dir`, zero units is no move, and −n units is n units the opposite way |
| CoreDirections.FromIndex | Assets/BonesCubed/Common/DataTypes/Core/Direction.cs:143-155 | succeeds exactly for 0 .. 5 with the named value of that index; any other index is an `ArgumentException` |
| CoreDirections.NamedDirections | Assets/BonesCubed/Common/DataTypes/Core/Direction.cs:12-42 | the six constants have indices 0 .. 5 and pairwise distinct unit axis vectors; North is (0, 0, −1) |
| CoreDirections.EqualityByIndex | Assets/BonesCubed/Common/DataTypes/Core/Direction.cs:91-134 | `==` compares the index only and `!=` is its negation |
| CoreDirections.OppositeOfNamed | Assets/BonesCubed/Common/DataTypes/Core/Direction.cs:60-75 | on the six named values `Opposite` is an involution, never `==` to its argument, and negates `AsInt3` |
| CoreDirections.OppositeOfUnnamed | Assets/BonesCubed/Common/DataTypes/Core/Direction.cs:64-72 | a value whose index is outside 0 .. 5 has the default struct as its opposite |
| CoreDirections.DefaultActsAsNorth | Assets/BonesCubed/Common/DataTypes/Core/Direction.cs:60-121 | the default struct is `==` to North although its vector is zero, and its opposite is South |
| Cuboids.OverChunk | Assets/BonesCubed/Common/Iterators/Cuboidterator.cs:15-20 | the chunk iterator's corners are ordered |
| Cuboids.FromTwoPoints | Assets/BonesCubed/Common/Iterators/Cuboidterator.cs:29-34 | the corners are ordered and enclose both given points |
| Cuboids.GetEnumerator | Assets/BonesCubed/Common/Iterators/Cuboidterator.cs:53-65 | the three nested loops yield exactly the specification sequence `Positions(it)` |
| Cuboids.PositionsAreTheCuboid | Assets/BonesCubed/Common/Iterators/Cuboidterator.cs:55-63 | a position is yielded iff `min <= p <= max` on all axes, and the count is the product of the three extents |
| Cuboids.PositionsOrdered | Assets/BonesCubed/Common/Iterators/Cuboidterator.cs:55-63 | positions come in strictly increasing order with x outermost, then z, then y fastest, so none is yielded twice |
| Cuboids.FromTwoPointsSymmetric | Assets/BonesCubed/Common/Iterators/Cuboidterator.cs:29-34 | `FromTwoPoints(p1, p2)` and `FromTwoPoints(p2, p1)` are the same iterator, and both points are yielded |
| Cuboids.ChunkSizedCuboid | Assets/BonesCubed/Common/Iterators/Cuboidterator.cs:15-63 | a cuboid 16 wide on every axis yields 4096 positions, exactly those of the 16-cube at its minimum corner |
| Cuboids.OverChunkIsChunkSized | Assets/BonesCubed/Common/Iterators/Cuboidterator.cs:15-20 | `OverChunk` spans (0,0,0) .. (15,15,15), so it yields exactly [0,15]³ |
| IntMath.ToUShort | Assets/BonesCubed/Common/Jobs/GenerateRegionMesh.cs:98 | the unchecked `(ushort)` cast yields a value in 0 .. 65535 and leaves values already in range unchanged |
| IntMath.CDivAgrees | Assets/BonesCubed/Common/DataTypes/Core/Region.cs:65-67 | C#'s truncating `/` and `%` agree with floor division for a non-negative dividend and a positive divisor |
| NativeUtils.ValidateAllocation | Assets/BonesCubed/Common/Utils/NativeUtils.cs:15-18 | fails with `InvalidOperationException` iff the container is not created |
| NativeUtils.ValidateIndex | Assets/BonesCubed/Common/Utils/NativeUtils.cs:28-31 | fails with `IndexOutOfRangeException` iff the index is negative or at least `Length` |
| NativeUtils.ValidatePosition | Assets/BonesCubed/Common/Utils/NativeUtils.cs:41-44 | fails with `IndexOutOfRangeException` iff the region does not contain the position |
| NativeUtils.UsableAllocators | Assets/BonesCubed/Common/Native/Unsafe/UnsafeGrid3D.cs:36 | the constructors' test `allocator <= Allocator.None` lets exactly Temp, TempJob and Persistent through |
| Regions.CellIndexBound | Assets/BonesCubed/Common/DataTypes/Core/Region.cs:51 | the z-major index of a cell inside the box lies in 0 .. Length − 1 |
| Regions.CellIndexSplit | Assets/BonesCubed/Common/DataTypes/Core/Region.cs:65-67 | every index below the volume splits into coordinates inside the box that recompose to it |
| Regions.IndexFromPositionInRange | Assets/BonesCubed/Common/DataTypes/Core/Region.cs:46-82 | `IndexFromPosition` succeeds iff the position is contained, otherwise throws `IndexOutOfRange`, and its result lies in 0 .. Length − 1 |
| Regions.PositionFromIndexInRegion | Assets/BonesCubed/Common/DataTypes/Core/Region.cs:61-69 | with a positive size, `PositionFromIndex` succeeds iff 0 <= index < Length, and the position it returns is contained |
| Regions.PositionIndexRoundTrip | Assets/BonesCubed/Common/DataTypes/Core/Region.cs:46-69 | `PositionFromIndex(IndexFromPosition(p)) == p` for every contained p |
| Regions.IndexPositionRoundTrip | Assets/BonesCubed/Common/DataTypes/Core/Region.cs:46-69 | `IndexFromPosition(PositionFromIndex(i)) == i` for every valid i |
| Regions.IndexFromPositionInjective | Assets/BonesCubed/Common/DataTypes/Core/Region.cs:46-52 | two contained positions have the same index iff they are equal |
| Regions.Cells | Assets/BonesCubed/Common/DataTypes/Core/Region.cs:25-69 | the cell list in index order has Length entries |
| Regions.CellsInIndexOrder | Assets/BonesCubed/Common/DataTypes/Core/Region.cs:46-69 | entry i of the cell list is contained and has index i |
| Regions.CellsInRegion | Assets/BonesCubed/Common/DataTypes/Core/Region.cs:61-82 | every listed cell is contained in the region |
| Regions.CellsCoverRegion | Assets/BonesCubed/Common/DataTypes/Core/Region.cs:46-82 | every contained position is listed, at exactly its own index and nowhere else |
| Regions.EqualityAgreement | Assets/BonesCubed/Common/DataTypes/Core/Region.cs:86-129 | `==` holds iff corner and size are equal, `!=` is its negation, and `Equals` agrees and rejects a non-region |
| UnsafeGrids.UnsafeGrid3D.Allocate | Assets/BonesCubed/Common/Native/Unsafe/UnsafeGrid3D.cs:39-44 | the allocation stores region and allocator and clears every one of the `region.Length` cells |
| UnsafeGrids.UnsafeGrid3D.Create | Assets/BonesCubed/Common/Native/Unsafe/UnsafeGrid3D.cs:34-45 | `ArgumentException` iff the allocator is ≤ None or a size axis is ≤ 0; otherwise a created grid in which every index and every contained position reads the zero value |
| UnsafeGrids.UnsafeGrid3D.SetElementAt | Assets/BonesCubed/Common/Native/Unsafe/UnsafeGrid3D.cs:58-63 | fails with `InvalidOperation` on an uncreated grid and `IndexOutOfRange` outside 0 .. Length − 1, changing nothing; otherwise the cell reads the value and every other index reads as before |
| UnsafeGrids.UnsafeGrid3D.SetElement | Assets/BonesCubed/Common/Native/Unsafe/UnsafeGrid3D.cs:78-85 | fails on an uncreated grid or an uncontained position, changing nothing; otherwise the buffer changes only at `IndexFromPosition(pos)`, `pos` reads the value and every other position reads as before |
| UnsafeGrids.UnsafeGrid3D.Dispose | Assets/BonesCubed/Common/Native/Unsafe/UnsafeGrid3D.cs:89-94 | afterwards the grid is not created; disposing an uncreated grid leaves it so |
| UnsafeGrids.UnsafeGrid3D.PositionAccessIsIndexAccess | Assets/BonesCubed/Common/Native/Unsafe/UnsafeGrid3D.cs:67-74 | reading a contained position is reading index `IndexFromPosition(pos)` |
| UnsafeGrids.UnsafeGrid3D.UncreatedAccessFails | Assets/BonesCubed/Common/Native/Unsafe/UnsafeGrid3D.cs:51-69 | every read of an uncreated grid is an `InvalidOperationException` |
| UnsafeGrids.WriteCellFrame | Assets/BonesCubed/Common/Native/Unsafe/UnsafeGrid3D.cs:78-85 | writing the cell of one contained position changes what that position reads and nothing else |
| UnsafeGrids.ChunkRegion | Assets/BonesCubed/Common/Native/Unsafe/UnsafeInfiniteGrid3D.cs:49 | the chunk region `Region(key << 4, 16)` has a positive size |
| UnsafeGrids.ChunkRegionContains | Assets/BonesCubed/Common/Native/Unsafe/UnsafeInfiniteGrid3D.cs:48-49 | the chunk region of `pos >> 4` contains `pos` |
| UnsafeGrids.UnsafeInfiniteGrid3D.Allocate | Assets/BonesCubed/Common/Native/Unsafe/UnsafeInfiniteGrid3D.cs:26-27 | a created grid with an empty chunk map |
| UnsafeGrids.UnsafeInfiniteGrid3D.Create | Assets/BonesCubed/Common/Native/Unsafe/UnsafeInfiniteGrid3D.cs:22-28 | `ArgumentException` iff the allocator is ≤ None; otherwise an empty grid where every position reads the default value |
| UnsafeGrids.UnsafeInfiniteGrid3D.GetElementSucceeds | Assets/BonesCubed/Common/Native/Unsafe/UnsafeInfiniteGrid3D.cs:32-40 | reading any position of a created grid succeeds, since a stored chunk always contains the positions of its key |
| UnsafeGrids.AbsentChunkReadsDefault | Assets/BonesCubed/Common/Native/Unsafe/UnsafeInfiniteGrid3D.cs:36-37 | a position whose key `pos >> 4` is absent reads as the default value (reading is a function, so it adds no chunk) |
| UnsafeGrids.UnsafeInfiniteGrid3D.SetElement | Assets/BonesCubed/Common/Native/Unsafe/UnsafeInfiniteGrid3D.cs:44-52 | fails with `InvalidOperation` when not created; otherwise the key set gains at most `pos >> 4`, no stored chunk is replaced, `pos` reads the value and every other position reads as before |
| UnsafeGrids.UnsafeInfiniteGrid3D.AddChunk | Assets/BonesCubed/Common/Native/Unsafe/UnsafeInfiniteGrid3D.cs:49 | inserts exactly one fresh chunk at the absent key, with region `Region(key << 4, 16)`, and every position still reads as before, so the new chunk's cells read as default |
| UnsafeGrids.UnsafeInfiniteGrid3D.Dispose | Assets/BonesCubed/Common/Native/Unsafe/UnsafeInfiniteGrid3D.cs:56-65 | when created, every stored chunk ends disposed and then the map is; when not created nothing changes |
| NativeGrids.GridIndexIsRegionIndex | Assets/BonesCubed/Common/Native/NativeGrid3D.cs:40-43 | the indexer's bounds test is `Contains` of the origin-cornered region, and the index `z*sx*sy + y*sx + x` is that region's index, in 0 .. length − 1 |
| NativeGrids.GridIndexInjective | Assets/BonesCubed/Common/Native/NativeGrid3D.cs:43-54 | two in-bounds positions share a cell index iff they are equal |
| NativeGrids.NativeGrid3D.Allocate | Assets/BonesCubed/Common/Native/NativeGrid3D.cs:89-91 | the backing array has `size.x * size.y * size.z` cells, all default |
| NativeGrids.NativeGrid3D.Create | Assets/BonesCubed/Common/Native/NativeGrid3D.cs:77-92 | `ArgumentException` iff the allocator is ≤ None or a size axis is ≤ 0; otherwise `Size` is the given size, the array has the product length and every in-bounds position reads default |
| NativeGrids.NativeGrid3D.Set | Assets/BonesCubed/Common/Native/NativeGrid3D.cs:47-56 | fails unless `0 <= pos < size` on every axis, changing nothing; otherwise only the cell at `z*sx*sy + y*sx + x` changes, so `pos` reads the value and every other position reads as before |
| NativeGrids.NativeGrid3D.GetIsRegionCell | Assets/BonesCubed/Common/Native/NativeGrid3D.cs:36-45 | a live grid reads each position as the region cell of that position |
| NativeGrids.NativeGrid3D.Dispose | Assets/BonesCubed/Common/Native/NativeGrid3D.cs:96-103 | the grid becomes disposed; a second dispose throws `InvalidOperationException` |
| NativeGrids.GetFailures | Assets/BonesCubed/Common/Native/NativeGrid3D.cs:36-45 | a read fails iff the grid is disposed (`InvalidOperation`) or the position is out of bounds on some axis (`IndexOutOfRange`) |
| LegacyNativeGrids.NativeGrid3D.Allocate | Common/Native/NativeGrid3D.cs:81-86 | the buffer has `size.x * size.y * size.z` cells, all cleared |
| LegacyNativeGrids.NativeGrid3D.Create | Common/Native/NativeGrid3D.cs:73-93 | `ArgumentException` iff the allocator is ≤ None or a size axis is ≤ 0; otherwise a buffer of the product length, zero everywhere |
| LegacyNativeGrids.NativeGrid3D.Set | Common/Native/NativeGrid3D.cs:45-54 | throws exactly when disposed or when the all-axis guard rejects; otherwise writes the cell at `z*sx*sy + y*sx + x` and nothing else (an index outside the buffer is reported, not written) |
| LegacyNativeGrids.NativeGrid3D.Dispose | Common/Native/NativeGrid3D.cs:97-104 | the grid becomes disposed; a second dispose throws |
| LegacyNativeGrids.GuardRejectsOnlyAllAxis | Common/Native/NativeGrid3D.cs:38-49 | the guard throws only when every coordinate is negative or every coordinate is ≥ its size; it never rejects an in-bounds position |
| LegacyNativeGrids.InBoundsAccess | Common/Native/NativeGrid3D.cs:32-55 | for in-bounds positions a read returns the cell at the grid index, and distinct positions have distinct cells |
| LegacyNativeGrids.GuardLetsNegativeThrough | Common/Native/NativeGrid3D.cs:38-41 | (−1, 0, 0) passes the guard and its index −1 lies before the buffer |
| LegacyNativeGrids.GuardLetsRowOverflowThrough | Common/Native/NativeGrid3D.cs:38-41 | (size.x, 0, 0) passes the guard and, with more than one row, reads the cell of (0, 1, 0) |
| LegacyNativeGrids.RowOverflowIndex | Common/Native/NativeGrid3D.cs:41 | one past the end of row 0 has the same index as the first cell of row 1 |
| SurroundingChunks.ChunkOffsetRange | Assets/BonesCubed/Common/Native/SurroundingChunkGrid.cs:51 | for a coordinate in [−16, 32), `(v >> 4) + 1` is 0, 1 or 2 according to the chunk the coordinate falls in |
| SurroundingChunks.SlotIndexInRange | Assets/BonesCubed/Common/Native/SurroundingChunkGrid.cs:51-52 | every position with coordinates in [−16, 32) has a slot in 0 .. 26, and positions in [0,15]³ map to slot 13 |
| SurroundingChunks.SlotIndexInjective | Assets/BonesCubed/Common/Native/SurroundingChunkGrid.cs:51-52 | two positions of the neighbourhood share a slot iff they lie in the same chunk (`pos >> 4` equal) |
| SurroundingChunks.SurroundingChunkGrid.constructor | Assets/BonesCubed/Common/Native/SurroundingChunkGrid.cs:13-39 | the 27 fields hold the given chunk grids in order |
| SurroundingChunks.SurroundingChunkGrid.GetSlot | Assets/BonesCubed/Common/Native/SurroundingChunkGrid.cs:73-106 | the int getter succeeds iff 0 <= index <= 26 and throws `IndexOutOfRange` otherwise |
| SurroundingChunks.SurroundingChunkGrid.SetSlot | Assets/BonesCubed/Common/Native/SurroundingChunkGrid.cs:108-141 | the int setter throws outside 0 .. 26 and changes nothing; otherwise that slot reads the value and the other 26 read as before |
| SurroundingChunks.SurroundingChunkGrid.GetChunk | Assets/BonesCubed/Common/Native/SurroundingChunkGrid.cs:49-54 | the `BlockPos` getter never fails inside the neighbourhood, where its slot is in 0 .. 26 |
| SurroundingChunks.SurroundingChunkGrid.SetChunk | Assets/BonesCubed/Common/Native/SurroundingChunkGrid.cs:56-61 | the `BlockPos` setter writes the position's slot, which then reads the value, and positions of other chunks still read their old grids |
| SurroundingChunks.LocalBlockOfChunkSizedSlot | Assets/BonesCubed/Common/Native/SurroundingChunkGrid.cs:151-154 | when the chosen grid is live and 16³, the local read succeeds |
| SurroundingChunks.CentreBlockReadsCentreSlot | Assets/BonesCubed/Common/Native/SurroundingChunkGrid.cs:51-53 | a position in [0,15]³ is read from slot 13 at the position itself |
| ContainerLists.Grown | Assets/BonesCubed/Common/Native/NativeContainerList.cs:192-197 | the reallocated buffer has the doubled capacity in slots |
| ContainerLists.GrowthPreservesElements | Assets/BonesCubed/Common/Native/NativeContainerList.cs:192-197 | copying `Count * SizeOf<T>()` bytes carries each of the first `Count` elements over and leaves the new slots unwritten |
| ContainerLists.AsWrittenGrowthLosesLastElement | Assets/BonesCubed/Common/Native/NativeContainerList.cs:195 | copying only `Count` bytes, as written, leaves slot `Count − 1` uncopied whenever an element is wider than one byte |
| ContainerLists.Elements | Assets/BonesCubed/Common/Native/NativeContainerList.cs:105-115 | the elements of the filled prefix, one per slot, in slot order |
| ContainerLists.NativeContainerList.Contents | Assets/BonesCubed/Common/Native/NativeContainerList.cs:79-115 | the list holds exactly `Count` elements |
| ContainerLists.NativeContainerList.Allocate | Assets/BonesCubed/Common/Native/NativeContainerList.cs:139-150 | a fresh buffer of `capacity` slots, `Count == 0`, `Capacity == capacity` |
| ContainerLists.NativeContainerList.Create | Assets/BonesCubed/Common/Native/NativeContainerList.cs:132-157 | `ArgumentException` iff the allocator is ≤ None or the capacity is ≤ 0; otherwise an empty list with `Count == 0` and the given `Capacity` |
| ContainerLists.NativeContainerList.GetCapacity | Assets/BonesCubed/Common/Native/NativeContainerList.cs:56-64 | returns the capacity cell, or `InvalidOperation` once disposed |
| ContainerLists.NativeContainerList.GetCount | Assets/BonesCubed/Common/Native/NativeContainerList.cs:79-87 | returns the count cell, or `InvalidOperation` once disposed |
| ContainerLists.NativeContainerList.Get | Assets/BonesCubed/Common/Native/NativeContainerList.cs:105-115 | succeeds iff live and 0 <= index < Count, returning element `index`; otherwise `IndexOutOfRange` (or `InvalidOperation` once disposed) |
| ContainerLists.NativeContainerList.SpawnNewInstance | Assets/BonesCubed/Common/Native/NativeContainerList.cs:184-202 | corrected (copy of `Count * SizeOf<T>()` bytes; as written in `ContainerLists.AsWrittenGrowthLosesLastElement`): `Count` grows by exactly 1, `Capacity` doubles iff `Count == Capacity` before the call and is otherwise unchanged, `0 <= Count <= Capacity` is kept, and the contents become the old contents plus the spawner's element for slot `Count` |
| ContainerLists.NativeContainerList.Grow | Assets/BonesCubed/Common/Native/NativeContainerList.cs:190-198 | corrected (copy of `Count * SizeOf<T>()` bytes; as written in `ContainerLists.AsWrittenGrowthLosesLastElement`): a fresh buffer of twice the capacity whose first `Count` slots, and so the contents, are those of the old buffer |
| ContainerLists.NativeContainerList.Dispose | Assets/BonesCubed/Common/Native/NativeContainerList.cs:162-175 | disposes each of the `Count` children once, in index order, before the list becomes disposed; a second call throws `InvalidOperation` |
| ContainerLists.ElementsExtend | Assets/BonesCubed/Common/Native/NativeContainerList.cs:200-201 | writing slot `Count` and counting it appends that element to the contents |
| ContainerLists.PrefixElements | Assets/BonesCubed/Common/Native/NativeContainerList.cs:195 | two buffers agreeing on the first `Count` slots have the same contents |
| NativeMeshes.TotalIsFlattenLength | Assets/BonesCubed/Common/Native/NativeMesh.cs:63-87 | the summed list lengths are the length of the concatenated lists |
| NativeMeshes.FlattenAppend | Assets/BonesCubed/Common/Native/NativeMesh.cs:177-210 | concatenating two runs of lists concatenates their concatenations |
| NativeMeshes.ListRangeInFlatten | Assets/BonesCubed/Common/Native/NativeMesh.cs:243-260 | in the concatenation, list s occupies exactly the positions from the prefix sum over lists 0 .. s−1, for its own length |
| NativeMeshes.VertexLists | Assets/BonesCubed/Common/Native/NativeMesh.cs:69 | one vertex list per submesh, in submesh order |
| NativeMeshes.IndexLists | Assets/BonesCubed/Common/Native/NativeMesh.cs:84 | one index list per submesh, in submesh order |
| NativeMeshes.IntendedDescriptors | Assets/BonesCubed/Common/Native/NativeMesh.cs:234-256 | one descriptor in each of the slots 0 .. subMeshCount − 1 |
| NativeMeshes.IntendedDescriptorsSelectSubmeshes | Assets/BonesCubed/Common/Native/NativeMesh.cs:243-260 | descriptor s's vertex range (from `baseVertex`, `vertexCount` long) is submesh s's vertices in the concatenated buffer, and its index range (from the index offset, `indexCount` long) is submesh s's indices |
| NativeMeshes.AsWrittenDescriptorsLoseSubmeshes | Assets/BonesCubed/Common/Native/NativeMesh.cs:248 | writing every descriptor to slot 0, as the code does, leaves slot 1 empty for two or more submeshes and slot 0 holding the last submesh's descriptor |
| NativeMeshes.CopyFlattened | Assets/BonesCubed/Common/Native/NativeMesh.cs:179-187 | the running-index copy writes exactly the concatenation into positions 0 .. total − 1 and leaves the rest alone; a destination too short throws `IndexOutOfRange` after filling it |
| NativeMeshes.FlattenPrefix | Assets/BonesCubed/Common/Native/NativeMesh.cs:179-187 | a copy stopped inside list i holds a prefix of the concatenation |
| NativeMeshes.SumLengths | Assets/BonesCubed/Common/Native/NativeMesh.cs:67-70 | the running count ends at the summed list lengths, the length of the concatenation |
| NativeMeshes.NativeMesh.Allocate | Assets/BonesCubed/Common/Native/NativeMesh.cs:127-131 | an empty submesh list of capacity 4 |
| NativeMeshes.NativeMesh.Create | Assets/BonesCubed/Common/Native/NativeMesh.cs:118-138 | `ArgumentException` iff the allocator is ≤ None or the index type is neither `uint` nor `ushort`; otherwise an empty submesh list of capacity 4 |
| NativeMeshes.NativeMesh.Get | Assets/BonesCubed/Common/Native/NativeMesh.cs:57 | returns submesh `index`, or `IndexOutOfRange` outside the list (`InvalidOperation` once disposed) |
| NativeMeshes.NativeMesh.TotalVertexCount | Assets/BonesCubed/Common/Native/NativeMesh.cs:63-72 | the sum of the submeshes' vertex-list lengths |
| NativeMeshes.NativeMesh.TotalIndexCount | Assets/BonesCubed/Common/Native/NativeMesh.cs:78-87 | the sum of the submeshes' index-list lengths |
| NativeMeshes.NativeMesh.GetAllVertices | Assets/BonesCubed/Common/Native/NativeMesh.cs:177-188 | writes exactly the concatenated vertex lists, in submesh order, into positions 0 .. TotalVertexCount − 1, and nothing after them |
| NativeMeshes.NativeMesh.GetAllIndices | Assets/BonesCubed/Common/Native/NativeMesh.cs:199-210 | writes the concatenated index lists unchanged (no rebasing) into positions 0 .. TotalIndexCount − 1 |
| NativeMeshes.NativeMesh.ApplyToMesh | Assets/BonesCubed/Common/Native/NativeMesh.cs:219-261 | corrected (descriptor s to slot s; as written in `NativeMeshes.AsWrittenDescriptorsLoseSubmeshes`): the mesh receives the concatenated vertex and index buffers, the index format of the index type, `subMeshCount` = the number of submeshes, and descriptor s (prefix-sum offsets) in slot s |
| NativeMeshes.NativeMesh.Dispose | Assets/BonesCubed/Common/Native/NativeMesh.cs:157-166 | the mesh becomes disposed; a second call throws `InvalidOperation` |
| NativeMeshes.SetSubmeshDescriptors | Assets/BonesCubed/Common/Native/NativeMesh.cs:243-260 | the offset loop's running vertex and index offsets are the prefix sums over the earlier submeshes, giving exactly the intended descriptors |
| NativeMeshes.IntendedDescriptorsSnoc | Assets/BonesCubed/Common/Native/NativeMesh.cs:245-260 | one more loop step adds submesh s's descriptor in slot s and keeps the earlier slots |
| OccludingSegments.TagBit | Assets/BonesCubed/Common/Jobs/LoadBlockModel.cs:79-81 | the flag loop's k-th flag `1 << k` is a tag exactly for k < 7 and a face flag exactly for k < 6 |
| OccludingSegments.TagBitOrder | Assets/BonesCubed/Common/Jobs/LoadBlockModel.cs:79 | shifting left by one moves to the next flag, flags increase, and the loop bound `Everything` is passed exactly after the seventh flag |
| OccludingSegments.TagIsTagBit | Assets/BonesCubed/Common/API/IBlockModel.cs:16-28 | every single segment flag (a face or Center) is reached by exactly one step of the flag loop |
| OccludingSegments.TagsDisjoint | Assets/BonesCubed/Common/API/IBlockModel.cs:16-28 | two single-segment flags share a bit iff they are equal, and each lies inside `Everything` |
| BlockModels.FirstTaggedFrom | Assets/BonesCubed/Common/Native/Unsafe/UnsafeBlockModel.cs:96-98 | a position found from `from` on holds a segment with the requested tag |
| BlockModels.FirstTaggedFromRule | Assets/BonesCubed/Common/Native/Unsafe/UnsafeBlockModel.cs:96-103 | any segment at or after `from` with the tag makes the search succeed no later than it |
| BlockModels.FirstTagged | Assets/BonesCubed/Common/Native/Unsafe/UnsafeBlockModel.cs:96-103 | a found position lies in the list and holds a segment with the tag |
| BlockModels.FirstTaggedRule | Assets/BonesCubed/Common/Native/Unsafe/UnsafeBlockModel.cs:96-103 | the position found is the first segment with the tag; nothing is found only when no segment has it |
| BlockModels.FirstTaggedAppend | Assets/BonesCubed/Common/Native/Unsafe/UnsafeBlockModel.cs:79-85 | adding a segment never changes which segment an existing tag finds; a tag with no segment before now finds the new one iff it carries that tag |
| BlockModels.UnsafeBlockModel.constructor | Assets/BonesCubed/Common/Native/Unsafe/UnsafeBlockModel.cs:65-70 | a created model with no segments that reports the given occluding segments and allocator |
| BlockModels.UnsafeBlockModel.AddSegment | Assets/BonesCubed/Common/Native/Unsafe/UnsafeBlockModel.cs:79-85 | exactly one segment holding the given vertices, indices and tag is appended; earlier segments stay |
| BlockModels.UnsafeBlockModel.GetSegment | Assets/BonesCubed/Common/Native/Unsafe/UnsafeBlockModel.cs:94-104 | appends the first segment with the tag's vertices and indices to the caller's lists, or leaves them unchanged when no segment has it |
| BlockModels.UnsafeBlockModel.Dispose | Assets/BonesCubed/Common/Native/Unsafe/UnsafeBlockModel.cs:108-112 | every segment is freed, in list order, and then the model is no longer created |
| BlockModelLoading.CalculateSegment | Assets/BonesCubed/Common/Jobs/LoadBlockModel.cs:153-166 | the result is always a single segment flag (a face or Center) |
| BlockModelLoading.CalculateSegmentRule | Assets/BonesCubed/Common/Jobs/LoadBlockModel.cs:158-165 | Center iff no face test passes; otherwise the chosen face's test passes and no later face in the order North, East, South, West, Top, Bottom passes (the last match wins) |
| BlockModelLoading.LoaderFaceNormal | Assets/BonesCubed/Common/Jobs/LoadBlockModel.cs:159-164 | as written: the normal each face test compares with, one unit axis vector per flag, with North tested against +z at z = 1 and South against −z at z = 0 |
| BlockModelLoading.AsWrittenZFacesSwapped | Assets/BonesCubed/Common/Jobs/LoadBlockModel.cs:159-161 | the face tagged North faces +z although North is (0, 0, −1); the neighbour face that occlusion asks about for North and for South is not the touching one; East, West, Top and Bottom agree with the direction table |
| BlockModelLoading.IntendedFaceNormal | Assets/BonesCubed/Common/Jobs/LoadBlockModel.cs:159-164 | corrected (as written in `BlockModelLoading.LoaderFaceNormal`): one unit axis vector per flag |
| BlockModelLoading.IntendedFaceNormals | Assets/BonesCubed/Common/DataTypes/Core/Direction.cs:12-75 | corrected (as written in `BlockModelLoading.AsWrittenZFacesSwapped`): the face with the flag of direction k faces along k's vector, and the face with the opposite flag, the one occlusion asks the neighbour toward k about, faces back along its negation |
| BlockModelLoading.TriangleVertices | Assets/BonesCubed/Common/Jobs/LoadBlockModel.cs:67-69 | a triangle has exactly three vertices |
| BlockModelLoading.TagsUpTo | Assets/BonesCubed/Common/Jobs/LoadBlockModel.cs:64-73 | one tag per triangle so far, each a single segment flag |
| BlockModelLoading.TriangleTags | Assets/BonesCubed/Common/Jobs/LoadBlockModel.cs:64 | `segmentIndicators` has `indexCount / 3` entries, each a single segment flag |
| BlockModelLoading.TriangleTagsEntry | Assets/BonesCubed/Common/Jobs/LoadBlockModel.cs:70-71 | entry t is the segment `CalculateSegment` gives triangle t |
| BlockModelLoading.UnionOfTags | Assets/BonesCubed/Common/Jobs/LoadBlockModel.cs:63-72 | `usedSegments` holds a flag's bit iff some triangle carries that flag, and no bit outside `Everything` |
| BlockModelLoading.SegmentStream | Assets/BonesCubed/Common/Jobs/LoadBlockModel.cs:84-91 | the vertices streamed for a flag are three per triangle carrying it |
| BlockModelLoading.LastMatch | Assets/BonesCubed/Common/Jobs/LoadBlockModel.cs:135-141 | −1 iff no vertex matches; otherwise a matching position with no match after it |
| BlockModelLoading.AppendedRule | Assets/BonesCubed/Common/Jobs/LoadBlockModel.cs:115-125 | exactly one index is appended; a vertex is appended iff none matched; earlier entries stay; the index is a 16-bit value that names the vertex or a match of it while the list has at most 65536 vertices |
| BlockModelLoading.Dedup | Assets/BonesCubed/Common/Jobs/LoadBlockModel.cs:84-91 | one index per streamed vertex, and never more vertices than indices |
| BlockModelLoading.DedupSnoc | Assets/BonesCubed/Common/Jobs/LoadBlockModel.cs:115-125 | streaming one more vertex is one more `AppendIndex` |
| BlockModelLoading.DedupTriangle | Assets/BonesCubed/Common/Jobs/LoadBlockModel.cs:88-90 | a triangle's three vertices are three `AppendIndex` calls in order |
| BlockModelLoading.DedupRefers | Assets/BonesCubed/Common/Jobs/LoadBlockModel.cs:115-141 | below 65536 streamed vertices, index i names a stored vertex equal to or matching streamed vertex i, so the segment redraws the same triangles |
| BlockModelLoading.BuiltSegment | Assets/BonesCubed/Common/Jobs/LoadBlockModel.cs:84-93 | the segment for a flag carries that flag, has three indices per triangle with the flag and no more vertices than indices |
| BlockModelLoading.Builder | Assets/BonesCubed/Common/Jobs/LoadBlockModel.cs:79-96 | each segment built is labelled with the flag it was built for |
| BlockModelLoading.GetVertexIndex | Assets/BonesCubed/Common/Jobs/LoadBlockModel.cs:135-141 | the backward scan returns the last matching position, or −1 when nothing matches |
| BlockModelLoading.AppendIndex | Assets/BonesCubed/Common/Jobs/LoadBlockModel.cs:115-125 | has the effect described by `AppendedRule` |
| BlockModelLoading.SegmentStreamSkip | Assets/BonesCubed/Common/Jobs/LoadBlockModel.cs:86 | a triangle with another flag adds nothing to the stream |
| BlockModelLoading.SegmentStreamTake | Assets/BonesCubed/Common/Jobs/LoadBlockModel.cs:88-90 | a triangle with the flag adds its three vertices to the stream |
| BlockModelLoading.TriangleInside | Assets/BonesCubed/Common/Jobs/LoadBlockModel.cs:65-69 | in a well-formed triangle list every `indices[i + k]` read by the tag loop exists and names a vertex |
| BlockModelLoading.AppendTriangle | Assets/BonesCubed/Common/Jobs/LoadBlockModel.cs:88-90 | three appends extend the de-duplicated stream by the triangle |
| BlockModelLoading.TakeTriangle | Assets/BonesCubed/Common/Jobs/LoadBlockModel.cs:84-91 | a triangle carrying the flag extends the scratch lists to the next stream prefix |
| BlockModelLoading.VisitTriangle | Assets/BonesCubed/Common/Jobs/LoadBlockModel.cs:84-91 | each inner-loop step keeps the scratch lists equal to the de-duplicated stream so far |
| BlockModelLoading.BuildSegment | Assets/BonesCubed/Common/Jobs/LoadBlockModel.cs:84-91 | the inner loop ends with the scratch lists holding the de-duplicated vertices of all triangles with the flag |
| BlockModelLoading.UnionOfSnoc | Assets/BonesCubed/Common/Jobs/LoadBlockModel.cs:72 | or-ing a triangle's tag into `usedSegments` adds exactly the new tag to the union |
| BlockModelLoading.TagTriangles | Assets/BonesCubed/Common/Jobs/LoadBlockModel.cs:63-73 | the tag loop yields each triangle's segment in order and their union |
| BlockModelLoading.SegmentsUpToStep | Assets/BonesCubed/Common/Jobs/LoadBlockModel.cs:79-96 | flag step k adds that flag's segment iff the flag is used |
| BlockModelLoading.AddFlagSegment | Assets/BonesCubed/Common/Jobs/LoadBlockModel.cs:81-95 | one flag step appends that flag's built segment exactly when the flag is used |
| BlockModelLoading.AddSegments | Assets/BonesCubed/Common/Jobs/LoadBlockModel.cs:77-96 | the flag loop appends, in bit order, one built segment per used flag and keeps the model created |
| BlockModelLoading.Execute | Assets/BonesCubed/Common/Jobs/LoadBlockModel.cs:31-104 | the model of `modelIndex` gains exactly the loaded segments of its mesh, after the segments it had |
| BlockModelLoading.LoadedSegmentsSound | Assets/BonesCubed/Common/Jobs/LoadBlockModel.cs:79-93 | every segment added is a single segment flag carried by at least one triangle |
| BlockModelLoading.LoadedSegmentsComplete | Assets/BonesCubed/Common/Jobs/LoadBlockModel.cs:79-93 | every triangle's flag has a segment |
| BlockModelLoading.LoadedSegmentsIncreasing | Assets/BonesCubed/Common/Jobs/LoadBlockModel.cs:79 | segments are added in strictly increasing flag order, so no flag gets two segments |
| BlockModelLoading.FlagLoopSound | Assets/BonesCubed/Common/Jobs/LoadBlockModel.cs:79-93 | for any triangle tags, the flag loop adds only flags that occur |
| BlockModelLoading.FlagLoopComplete | Assets/BonesCubed/Common/Jobs/LoadBlockModel.cs:79-93 | for any triangle tags, the flag loop adds every flag that occurs |
| BlockModelLoading.LoadedSegmentContents | Assets/BonesCubed/Common/Jobs/LoadBlockModel.cs:84-141 | each segment has three indices per triangle of its flag, no more vertices than indices, and below 65536 indices each index names the streamed vertex or a match of it |
| BlockModelLoading.UsedTagRaise | Assets/BonesCubed/Common/Jobs/LoadBlockModel.cs:79 | a used flag below a bound stays below any higher bound |
| BlockModelLoading.UsedTagsBelowSnoc | Assets/BonesCubed/Common/Jobs/LoadBlockModel.cs:79-93 | appending a used flag at the current bound keeps every added flag used and below the next bound |
| BlockModelLoading.SegmentsUpToBuilt | Assets/BonesCubed/Common/Jobs/LoadBlockModel.cs:79-93 | after k flag steps every added segment's flag is used and below `1 << k` |
| BlockModelLoading.SegmentsUpToIncreasing | Assets/BonesCubed/Common/Jobs/LoadBlockModel.cs:79-93 | after k flag steps the added flags increase strictly |
| BlockModelLoading.SegmentsUpToFromBuild | Assets/BonesCubed/Common/Jobs/LoadBlockModel.cs:84-93 | each added segment is the one built for its own flag |
| BlockModelLoading.SegmentsUpToComplete | Assets/BonesCubed/Common/Jobs/LoadBlockModel.cs:79-93 | after k flag steps every used flag among the first k has a segment |
| BlockOcclusion.ModelIndexAt | Assets/BonesCubed/Common/Jobs/CalculateBlockOcclusion.cs:113-116 | a voxel is empty (index < 0) iff its id is 0, and the index is never below −1 |
| BlockOcclusion.OccludingSegmentFromDirection | Assets/BonesCubed/Common/Jobs/CalculateBlockOcclusion.cs:75-84 | always a single segment flag, and a face flag iff the direction is one of the six named ones (compared by index) |
| BlockOcclusion.FaceFlagsOfDirections | Assets/BonesCubed/Common/Jobs/CalculateBlockOcclusion.cs:75-84 | named direction k maps to the k-th flag, so the six directions map one to one onto the six face flags |
| BlockOcclusion.CalculateVisibleSegments | Assets/BonesCubed/Common/Jobs/CalculateBlockOcclusion.cs:52-66 | the result stays inside `Everything` and is never Center alone |
| BlockOcclusion.EmptyVoxelShowsNothing | Assets/BonesCubed/Common/Jobs/CalculateBlockOcclusion.cs:54-55 | an empty voxel's visibility is None |
| BlockOcclusion.FaceBitsDecide | Assets/BonesCubed/Common/Jobs/CalculateBlockOcclusion.cs:57-62 | after OR-ing the six per-face contributions each face flag is set iff its face contributed, and the centre bit is clear |
| BlockOcclusion.SolidVisibility | Assets/BonesCubed/Common/Jobs/CalculateBlockOcclusion.cs:57-65 | a solid voxel's visibility is the OR of its six face contributions, plus Center when that OR is non-zero |
| BlockOcclusion.FaceVisibleRule | Assets/BonesCubed/Common/Jobs/CalculateBlockOcclusion.cs:52-104 | the face flag of direction k is set iff the voxel is solid and the face toward k is not hidden |
| BlockOcclusion.CenterKeepsFace | Assets/BonesCubed/Common/Jobs/CalculateBlockOcclusion.cs:64 | adding Center does not change any face flag |
| BlockOcclusion.OppositeIndex | Assets/BonesCubed/Common/Jobs/CalculateBlockOcclusion.cs:97 | names the opposite direction, which differs from the direction itself |
| BlockOcclusion.HiddenFaceRule | Assets/BonesCubed/Common/Jobs/CalculateBlockOcclusion.cs:94-104 | the face toward k is hidden iff the neighbour there is solid and its model covers the opposite face flag |
| BlockOcclusion.NeighbourOfNeighbour | Assets/BonesCubed/Common/Jobs/CalculateBlockOcclusion.cs:96-97 | stepping toward k and then toward its opposite returns to the voxel |
| BlockOcclusion.FullBlocksHideSharedFaces | Assets/BonesCubed/Common/Jobs/CalculateBlockOcclusion.cs:94-104 | two adjacent voxels whose models cover every face each hide the face they share with the other |
| BlockOcclusion.EverythingCovers | Assets/BonesCubed/Common/Jobs/CalculateBlockOcclusion.cs:103 | every single segment flag is a non-zero part of `Everything` |
| BlockOcclusion.CenterRule | Assets/BonesCubed/Common/Jobs/CalculateBlockOcclusion.cs:64 | Center is set iff at least one face flag is set |
| BlockOcclusion.IsolatedVoxelShowsEverything | Assets/BonesCubed/Common/Jobs/CalculateBlockOcclusion.cs:52-100 | a solid voxel whose six neighbours are empty shows `Everything` |
| BlockOcclusion.VisibilityIsLocal | Assets/BonesCubed/Common/Jobs/CalculateBlockOcclusion.cs:52-104 | visibility depends only on the ids of the voxel and its six neighbours |
| BlockOcclusion.Execute | Assets/BonesCubed/Common/Jobs/CalculateBlockOcclusion.cs:37-42 | index i inside the output region receives the visibility of the voxel at that region position (None for an empty voxel), and no other cell changes; an index outside the region fails with `IndexOutOfRange` and writes nothing |
| RegionMeshes.FirstIndexFrom | Assets/BonesCubed/Common/Jobs/GenerateRegionMesh.cs:145-146 | the search stops at the first position from `from` holding the id, or at the end when none does |
| RegionMeshes.SubmeshOf | Assets/BonesCubed/Common/Jobs/GenerateRegionMesh.cs:143-150 | the submesh is the first position of the material id; a known id leaves the list unchanged, and an unknown one is appended and gets the last position |
| RegionMeshes.SubmeshOfDistinct | Assets/BonesCubed/Common/Jobs/GenerateRegionMesh.cs:143-150 | a duplicate-free material list stays duplicate-free, and the submesh is the id's only position |
| RegionMeshes.Translated | Assets/BonesCubed/Common/Jobs/GenerateRegionMesh.cs:90-95 | one moved vertex per scratch vertex |
| RegionMeshes.Rebased | Assets/BonesCubed/Common/Jobs/GenerateRegionMesh.cs:97-98 | one cast index per scratch index |
| RegionMeshes.CopySegments | Assets/BonesCubed/Common/Jobs/GenerateRegionMesh.cs:84-102 | the segment loop only appends to the shared vertex list and to the submesh's index list |
| RegionMeshes.CopySegmentRefers | Assets/BonesCubed/Common/Jobs/GenerateRegionMesh.cs:87-98 | while the shared list holds at most 65536 vertices, an appended index is the segment index plus the earlier vertex count and names the moved copy of the vertex the segment index named |
| RegionMeshes.RebaseWrapsPast65536 | Assets/BonesCubed/Common/Jobs/GenerateRegionMesh.cs:98 | past 65536 vertices the `ushort` cast wraps: a segment vertex stored at position 65536 is indexed as 0 |
| RegionMeshes.CopySegmentInRange | Assets/BonesCubed/Common/Jobs/GenerateRegionMesh.cs:84-102 | one segment pass over a model whose segments index their own vertices keeps every index inside the shared vertex list while it holds at most 65536 vertices |
| RegionMeshes.CopySegmentsInRange | Assets/BonesCubed/Common/Jobs/GenerateRegionMesh.cs:84-102 | copying a model whose segments index their own vertices keeps every index inside the shared vertex list while it holds at most 65536 vertices |
| RegionMeshes.VisibleOnly | Assets/BonesCubed/Common/Jobs/GenerateRegionMesh.cs:84-87 | culling never adds segments |
| RegionMeshes.VisibleOnlySound | Assets/BonesCubed/Common/Jobs/GenerateRegionMesh.cs:73-87 | every kept segment belongs to the model and has a visible flag |
| RegionMeshes.VisibleOnlyAt | Assets/BonesCubed/Common/Jobs/GenerateRegionMesh.cs:73-87 | entry i of the culled list belongs to the model and has a visible flag |
| RegionMeshes.VisibleOnlyComplete | Assets/BonesCubed/Common/Jobs/GenerateRegionMesh.cs:73-87 | every segment with a visible flag is kept |
| RegionMeshes.SegmentListsVisibleOnly | Assets/BonesCubed/Common/Jobs/GenerateRegionMesh.cs:87 | after culling, fetching a visible flag returns what it did before and fetching a hidden flag returns nothing |
| RegionMeshes.FirstTaggedTail | Assets/BonesCubed/Common/Jobs/GenerateRegionMesh.cs:87 | the first-match fetch is the head segment when it has the flag, else the fetch from the rest |
| RegionMeshes.CulledCopiesVisibleSegments | Assets/BonesCubed/Common/Jobs/GenerateRegionMesh.cs:73-102 | a segment loop that skips hidden flags draws exactly what the loop does for the model with its hidden segments removed |
| RegionMeshes.AsWrittenCopiesHiddenSegments | Assets/BonesCubed/Common/Jobs/GenerateRegionMesh.cs:84-87 | the loop as written copies a south segment for a voxel whose visibility holds only North and Center, which a culling loop would leave out |
| RegionMeshes.Padded | Assets/BonesCubed/Common/Jobs/GenerateRegionMesh.cs:81 | the submesh lists are grown with empty lists to at least n, and the existing lists are kept |
| RegionMeshes.DrawVoxel | Assets/BonesCubed/Common/Jobs/GenerateRegionMesh.cs:80-104 | drawing a voxel updates the material list as `GetSubmesh` does |
| RegionMeshes.DrawVoxelGrows | Assets/BonesCubed/Common/Jobs/GenerateRegionMesh.cs:80-104 | drawing a voxel only appends: the vertex list and every submesh list keep their contents, and there are lists up to the voxel's submesh |
| RegionMeshes.VoxelStepMaterials | Assets/BonesCubed/Common/Jobs/GenerateRegionMesh.cs:72-150 | one voxel keeps the material list growing and duplicate-free, keeps every existing submesh, and gives a drawn voxel's material a submesh list |
| RegionMeshes.BuildMaterials | Assets/BonesCubed/Common/Jobs/GenerateRegionMesh.cs:70-105 | over the region pass, the material list only grows from its initial contents, stays duplicate-free, and has an entry for every submesh list |
| RegionMeshes.CoversDrawnExtend | Assets/BonesCubed/Common/Jobs/GenerateRegionMesh.cs:70-105 | a submesh for every drawn voxel but the last, kept, plus one for the last gives a submesh for all of them |
| RegionMeshes.BuildCoversDrawn | Assets/BonesCubed/Common/Jobs/GenerateRegionMesh.cs:70-105 | after the region pass, every drawn voxel's material has its submesh list |
| RegionMeshes.FirstIndexUnique | Assets/BonesCubed/Common/Jobs/GenerateRegionMesh.cs:145-146 | in a duplicate-free list the first position of a value is its only one |
| RegionMeshes.PaddedBelow | Assets/BonesCubed/Common/Jobs/GenerateRegionMesh.cs:81 | adding empty submesh lists keeps every index inside the vertex list |
| RegionMeshes.UpdateBelow | Assets/BonesCubed/Common/Jobs/GenerateRegionMesh.cs:104 | writing back a submesh list that indexes a longer vertex list keeps all lists inside it |
| RegionMeshes.DrawVoxelInRange | Assets/BonesCubed/Common/Jobs/GenerateRegionMesh.cs:80-104 | drawing a voxel keeps every index inside the vertex list while that list holds at most 65536 vertices |
| RegionMeshes.DrawVoxelShape | Assets/BonesCubed/Common/Jobs/GenerateRegionMesh.cs:80-104 | a drawn voxel copies its model into its submesh list, which is written back in place |
| RegionMeshes.CopyIntoSubmeshInRange | Assets/BonesCubed/Common/Jobs/GenerateRegionMesh.cs:82-104 | copying a model into submesh list s keeps every submesh list inside the grown vertex list |
| RegionMeshes.PlaceBelow | Assets/BonesCubed/Common/Jobs/GenerateRegionMesh.cs:104 | writing back the grown submesh list keeps every list inside the grown vertex list |
| RegionMeshes.VoxelStepInRange | Assets/BonesCubed/Common/Jobs/GenerateRegionMesh.cs:72-104 | one voxel step keeps every index inside the vertex list while it holds at most 65536 vertices |
| RegionMeshes.BuildIndicesInRange | Assets/BonesCubed/Common/Jobs/GenerateRegionMesh.cs:70-105 | while the region's vertex list stays within 65536 vertices, every emitted index names a vertex of that list |
| RegionMeshes.Descriptors | Assets/BonesCubed/Common/Jobs/GenerateRegionMesh.cs:120-126 | one descriptor per submesh list |
| RegionMeshes.ConcatSnoc | Assets/BonesCubed/Common/Jobs/GenerateRegionMesh.cs:120-126 | copying one more list appends it to the buffer so far |
| RegionMeshes.ConcatPrefix | Assets/BonesCubed/Common/Jobs/GenerateRegionMesh.cs:118-126 | the buffer after the first i lists is a prefix of the whole buffer |
| RegionMeshes.ConcatLayout | Assets/BonesCubed/Common/Jobs/GenerateRegionMesh.cs:118-126 | descriptor i covers exactly submesh i's indices; consecutive descriptors meet without a gap, and the last ends at the buffer's end |
| RegionMeshes.PaddedSnoc | Assets/BonesCubed/Common/Jobs/GenerateRegionMesh.cs:81 | one more pass of the padding loop adds one empty list |
| RegionMeshes.WriteIndexBuffer | Assets/BonesCubed/Common/Jobs/GenerateRegionMesh.cs:107-126 | the buffer is sized by the totals loop and holds the submesh lists end to end, each with the descriptor of its start and length |
| RegionMeshes.AppendTranslated | Assets/BonesCubed/Common/Jobs/GenerateRegionMesh.cs:89-95 | each scratch vertex is moved to the voxel and appended, in order |
| RegionMeshes.AppendRebased | Assets/BonesCubed/Common/Jobs/GenerateRegionMesh.cs:97-98 | each scratch index, shifted by the vertex offset and cast to `ushort`, is appended in order |
| RegionMeshes.CopyOneSegment | Assets/BonesCubed/Common/Jobs/GenerateRegionMesh.cs:86-101 | one pass of the segment loop: the fetched segment's moved vertices and rebased indices are appended |
| RegionMeshes.CopyModel | Assets/BonesCubed/Common/Jobs/GenerateRegionMesh.cs:84-102 | the segment loop copies the first segment of each flag 1, 2, .., 64 in turn, whatever the voxel's visibility holds |
| RegionMeshes.PadLists | Assets/BonesCubed/Common/Jobs/GenerateRegionMesh.cs:81 | the padding loop leaves lists up to and including the submesh |
| RegionMeshes.GenerateRegionMesh.constructor | Assets/BonesCubed/Common/Jobs/GenerateRegionMesh.cs:19-56 | the job holds the given inputs and material list |
| RegionMeshes.GenerateRegionMesh.GetSubmesh | Assets/BonesCubed/Common/Jobs/GenerateRegionMesh.cs:143-150 | returns the material's first position, appending the id to `materialIndices` only when it is absent |
| RegionMeshes.GenerateRegionMesh.DrawVoxelAt | Assets/BonesCubed/Common/Jobs/GenerateRegionMesh.cs:78-104 | a drawn voxel's submesh is found, the lists are padded, and its model's segments are copied into that submesh |
| RegionMeshes.GenerateRegionMesh.Execute | Assets/BonesCubed/Common/Jobs/GenerateRegionMesh.cs:61-133 | the vertex list, material list, index buffer and descriptors are those of the region pass over every cell in index order, skipping invisible and empty voxels |
| ChunkMeshes.Shown | Assets/BonesCubed/Common/Jobs/GenerateChunkMesh.cs:62-70 | the shown mask stays inside `Everything` and is never Center alone |
| ChunkMeshes.ShownFaceRule | Assets/BonesCubed/Common/Jobs/GenerateChunkMesh.cs:63-114 | direction k's face flag is shown iff the neighbour there is empty or its model does not cover the opposite face flag |
| ChunkMeshes.ShownCenterRule | Assets/BonesCubed/Common/Jobs/GenerateChunkMesh.cs:70 | Center is shown iff some face flag is shown |
| ChunkMeshes.SameFlags | Assets/BonesCubed/Common/Jobs/GenerateChunkMesh.cs:62-70 | two masks inside `Everything` with the same seven flags are equal |
| ChunkMeshes.SameVectors | Assets/BonesCubed/Common/Jobs/GenerateChunkMesh.cs:63-68 | the direction table this job uses and the one the occlusion job uses give the same vectors and the same opposites |
| ChunkMeshes.ShownFaceAgrees | Assets/BonesCubed/Common/Jobs/GenerateChunkMesh.cs:62-70 | the chunk mesher's mask and `CalculateBlockOcclusion`'s visibility agree on the flag of each of the six faces |
| ChunkMeshes.ShownAgreesWithOcclusion | Assets/BonesCubed/Common/Jobs/GenerateChunkMesh.cs:62-70 | for a solid voxel the chunk mesher's mask equals `CalculateBlockOcclusion`'s visibility, given the same ids and covered faces |
| ChunkMeshes.ExtendToCenter | Assets/BonesCubed/Common/Jobs/GenerateChunkMesh.cs:70 | agreement on the six face flags extends to Center when Center follows the faces in both masks |
| ChunkMeshes.ModelVertices | Assets/BonesCubed/Common/Jobs/GenerateChunkMesh.cs:73-83 | one moved vertex per model vertex |
| ChunkMeshes.ModelVerticesAt | Assets/BonesCubed/Common/Jobs/GenerateChunkMesh.cs:73-83 | vertex i of the copy is the model's vertex i moved to the voxel |
| ChunkMeshes.RawIndex | Assets/BonesCubed/Common/Jobs/GenerateChunkMesh.cs:87-88 | a model index plus the model's vertex offset names an atlas vertex |
| ChunkMeshes.ShownIndices | Assets/BonesCubed/Common/Jobs/GenerateChunkMesh.cs:85-92 | every kept index names an atlas vertex of the model whose segment is shown, and no more indices are kept than the model has |
| ChunkMeshes.ShownIndicesKeep | Assets/BonesCubed/Common/Jobs/GenerateChunkMesh.cs:85-92 | every index whose vertex lies in a shown segment is kept |
| ChunkMeshes.GrowsTransitive | Assets/BonesCubed/Common/Jobs/GenerateChunkMesh.cs:48-95 | the prefix relation between meshes is transitive |
| ChunkMeshes.VoxelStepRule | Assets/BonesCubed/Common/Jobs/GenerateChunkMesh.cs:55-92 | an empty voxel, a model with no segments, or a model with no shown segment leaves the mesh unchanged; any other voxel appends all of its model's vertices and at most all of its indices, keeping what was there |
| ChunkMeshes.BuildKeepsPrefix | Assets/BonesCubed/Common/Jobs/GenerateChunkMesh.cs:48-95 | the mesh only grows over the loops: what an earlier voxel appended stays in place |
| ChunkMeshes.EmptyChunkAddsNothing | Assets/BonesCubed/Common/Jobs/GenerateChunkMesh.cs:55-56 | a chunk whose voxels are all empty leaves the mesh unchanged |
| ChunkMeshes.AsWrittenIndicesNameEarlierVertices | Assets/BonesCubed/Common/Jobs/GenerateChunkMesh.cs:85-92 | as written the appended indices are not shifted: once earlier voxels added a model's worth of vertices, every index a later voxel appends names an earlier vertex |
| ChunkMeshes.Shifted | Assets/BonesCubed/Common/Jobs/GenerateChunkMesh.cs:91 | each index shifted by the offset, in order |
| ChunkMeshes.RebasedVoxelStep | Assets/BonesCubed/Common/Jobs/GenerateChunkMesh.cs:55-92 | the shifted variant skips the same voxels and appends the same vertices |
| ChunkMeshes.RebasedIndicesNameOwnVertices | Assets/BonesCubed/Common/Jobs/GenerateChunkMesh.cs:73-92 | with indices shifted by the vertex count, every index a voxel appends names a vertex that same voxel appended, the moved copy of the atlas vertex the model named |
| ChunkMeshes.RebasedIndexNamesOwnVertex | Assets/BonesCubed/Common/Jobs/GenerateChunkMesh.cs:85-92 | one shifted index names the voxel's own moved vertex |
| ChunkMeshes.ShownIndicesLocal | Assets/BonesCubed/Common/Jobs/GenerateChunkMesh.cs:85-92 | for a model whose indices stay in its own vertex range, the kept indices do too |
| ChunkMeshes.AppendModelVertices | Assets/BonesCubed/Common/Jobs/GenerateChunkMesh.cs:73-83 | the vertex loop appends the model's vertices, moved to the voxel, in order, and leaves the indices alone |
| ChunkMeshes.AppendShownIndices | Assets/BonesCubed/Common/Jobs/GenerateChunkMesh.cs:85-92 | the index loop appends exactly the model's indices whose vertex lies in a shown segment, unchanged and in order |
| ChunkMeshes.DrawVoxel | Assets/BonesCubed/Common/Jobs/GenerateChunkMesh.cs:54-92 | the loop body changes the mesh as the voxel step says |
| ChunkMeshes.DrawStep | Assets/BonesCubed/Common/Jobs/GenerateChunkMesh.cs:54-92 | drawing the voxel the loops visit at step m takes the mesh from the first m loop steps to the first m + 1 |
| ChunkMeshes.DrawColumn | Assets/BonesCubed/Common/Jobs/GenerateChunkMesh.cs:52-93 | the z loop handles one column's sixteen voxels in loop order |
| ChunkMeshes.DrawSlab | Assets/BonesCubed/Common/Jobs/GenerateChunkMesh.cs:50-94 | the y loop handles one slab's 256 voxels in loop order |
| ChunkMeshes.Execute | Assets/BonesCubed/Common/Jobs/GenerateChunkMesh.cs:46-96 | the chunk mesh ends as the voxel step applied to all 4096 positions in x, y, z loop order |
| ChunkLoops.LocalAt | Assets/BonesCubed/Common/Jobs/GenerateChunkMesh.cs:48-54 | step n of the x / y / z loops visits a position inside the 16 × 16 × 16 chunk |
| ChunkLoops.StepOf | Common/Jobs/GenerateChunkMesh.cs:30-36 | every chunk position has a step in 0 .. 4095 |
| ChunkLoops.StepOfLocalAt | Common/Jobs/GenerateChunkMesh.cs:30-36 | the step of the position visited at step n is n |
| ChunkLoops.LocalAtStepOf | Assets/BonesCubed/Common/Jobs/GenerateChunkMesh.cs:48-54 | every chunk position is visited, at exactly one step |
| ChunkLoops.LoopOrder | Assets/BonesCubed/Common/Jobs/GenerateChunkMesh.cs:48-52 | later steps visit positions later in x-major, z-minor order |
| MeshBuffers.MeshBuffer.constructor | Common/Jobs/GenerateChunkMesh.cs:23 | the output mesh starts with no vertices and no indices |
| MeshBuffers.MeshBuffer.VertexCount | Common/Utils/MeshUtilities.cs:54 | the number of vertices appended so far |
| MeshBuffers.MeshBuffer.AppendVertex | Assets/BonesCubed/Common/Jobs/GenerateChunkMesh.cs:76-82 | exactly one vertex is appended; the indices stay |
| MeshBuffers.MeshBuffer.AppendIndex | Assets/BonesCubed/Common/Jobs/GenerateChunkMesh.cs:91 | exactly one index is appended; the vertices stay |
| MeshUtilities.Faces | Common/Utils/MeshUtilities.cs:30-35 | a cube has six faces, listed north, east, south, west, top, bottom |
| MeshUtilities.FaceNormalsAreDirections | Common/Utils/MeshUtilities.cs:30-35 | the normal `AddCube` gives face k is the vector of direction k of the direction table |
| MeshUtilities.QuadIndices | Common/Utils/MeshUtilities.cs:54-60 | six indices, each a 16-bit value |
| MeshUtilities.QuadVertices | Common/Utils/MeshUtilities.cs:75-102 | four vertices per quad |
| MeshUtilities.QuadShape | Common/Utils/MeshUtilities.cs:50-102 | a quad with a negative texture index changes nothing; otherwise exactly four vertices and six indices are appended after what was there, the indices are base+0, 1, 2, 0, 2, 3 (base the vertex count before the call, with room below 65536), so each names a vertex of the same call, the four positions are v0 .. v3 in order, and each vertex carries the normal and uv.z = the texture index |
| MeshUtilities.QuadIndicesWrap | Common/Utils/MeshUtilities.cs:55-60 | the `ushort` cast wraps: a quad starting at vertex 65535 names vertex 0 as its second corner |
| MeshUtilities.AddQuad | Common/Utils/MeshUtilities.cs:50-103 | the mesh changes exactly as `QuadShape` describes |
| MeshUtilities.DrawnFaces | Common/Utils/MeshUtilities.cs:52 | no more faces are drawn than there are |
| MeshUtilities.QuadCounts | Common/Utils/MeshUtilities.cs:52-102 | one quad adds four vertices and six indices when its texture index is non-negative, and nothing otherwise |
| MeshUtilities.CubeCounts | Common/Utils/MeshUtilities.cs:30-102 | a cube adds four vertices and six indices per drawn face: 24 and 36 when all six are drawn |
| MeshUtilities.CubeFaceOrder | Common/Utils/MeshUtilities.cs:30-35 | with every face drawn the quads come north, east, south, west, top, bottom: vertices 4k .. 4k+3 carry face k's normal and texture index |
| MeshUtilities.AddCube | Common/Utils/MeshUtilities.cs:16-36 | the mesh changes as the six quads of the cube's corners, in face order |
| SolidChunkMeshes.CubeAt | Common/Jobs/GenerateChunkMesh.cs:39-48 | face k of the voxel's cube has the default texture corners and texture index −1 or 0 as the neighbour toward direction k is solid or not |
| SolidChunkMeshes.CubeAtRule | Common/Jobs/GenerateChunkMesh.cs:39-48 | face k's texture index is −1 iff the neighbour toward k is solid and 0 iff it is not; the cube spans exactly the voxel's cell |
| SolidChunkMeshes.OpenNeighbours | Common/Jobs/GenerateChunkMesh.cs:43-48 | at most k of the first k neighbours are open |
| SolidChunkMeshes.DrawnFacesAreOpenNeighbours | Common/Jobs/GenerateChunkMesh.cs:43-50 | the drawn faces of a voxel's cube are exactly its non-solid neighbours |
| SolidChunkMeshes.VoxelStepCounts | Common/Jobs/GenerateChunkMesh.cs:37-50 | a non-solid voxel adds nothing; a solid one adds four vertices and six indices per non-solid neighbour |
| SolidChunkMeshes.BuildCounts | Common/Jobs/GenerateChunkMesh.cs:30-53 | after n loop steps the mesh holds four vertices and six indices per open face of each solid voxel visited |
| SolidChunkMeshes.DrawVoxel | Common/Jobs/GenerateChunkMesh.cs:36-50 | the loop body changes the mesh as the voxel step says |
| SolidChunkMeshes.DrawColumn | Common/Jobs/GenerateChunkMesh.cs:34-52 | the z loop handles one column's sixteen voxels in loop order |
| SolidChunkMeshes.DrawSlab | Common/Jobs/GenerateChunkMesh.cs:32-53 | the y loop handles one slab's 256 voxels in loop order |
| SolidChunkMeshes.Execute | Common/Jobs/GenerateChunkMesh.cs:28-54 | the chunk mesh ends as the voxel step applied to all 4096 positions in x, y, z loop order |
| BlockMeshes.SolidByte | Assets/BonesCubed/Common/DataTypes/BlockMeshData.cs:16 | the setter stores 0 or 1, and the getter decodes it back to the value set |
| BlockMeshes.SetNormalises | Assets/BonesCubed/Common/DataTypes/BlockMeshData.cs:13-17 | writing back what a block reads as keeps its meaning, and changes the byte only when it was above 1 |
| BlockMeshes.BlockMeshData.constructor | Assets/BonesCubed/Common/DataTypes/BlockMeshData.cs:5 | the default byte is 0, which reads as not solid |
| BlockMeshes.BlockMeshData.SetIsSolid | Assets/BonesCubed/Common/DataTypes/BlockMeshData.cs:16 | stores 1 or 0, after which the getter returns the value set |
| Lists.IndexOf | Assets/BonesCubed/Runtime/Scripts/BlockList.cs:55-56 | −1 or a position holding the element |
| Lists.IndexOfRule | Assets/BonesCubed/Runtime/Scripts/BlockList.cs:55-56 | −1 iff the element is absent; otherwise the first position holding it |
| Lists.AddIfAbsentRule | Assets/BonesCubed/Runtime/Scripts/BlockList.cs:51-52 | after "add unless present" the element is there, the old list is a prefix, at most one element was added, and a duplicate-free list stays duplicate-free |
| Lists.AddedContents | Assets/BonesCubed/Runtime/Scripts/BlockList.cs:49-53 | the table built from the items keeps its start as a prefix, holds every item, holds nothing else, and stays duplicate-free |
| Lists.AddedPrefix | Assets/BonesCubed/Runtime/Scripts/BlockList.cs:49-53 | the table after fewer items is a prefix of the table after more |
| Lists.IndexOfInPrefix | Assets/BonesCubed/Runtime/Scripts/BlockList.cs:55-56 | growing a list never changes the first index of an element already in it |
| Lists.IndexAfterAdd | Assets/BonesCubed/Runtime/Scripts/BlockList.cs:51-56 | the index looked up right after adding item i equals its index in the finished table, and that slot holds the item |
| Lists.AddedFirstAppearance | Assets/BonesCubed/Runtime/Scripts/BlockList.cs:49-53 | a table built from empty lists the items in the order of their first appearance |
| Lists.AppendedIsNew | Assets/BonesCubed/Runtime/Scripts/BlockList.cs:51-52 | an item added at step k appears among the items for the first time at k |
| Lists.AddAllFirstAppearance | Assets/BonesCubed/Runtime/Scripts/BlockList.cs:49-53 | the finished table is in first-appearance order |
| BlockLists.Models | Assets/BonesCubed/Runtime/Scripts/BlockList.cs:51 | the blocks' models in block order |
| BlockLists.Materials | Assets/BonesCubed/Runtime/Scripts/BlockList.cs:52 | the blocks' materials in block order |
| BlockLists.MetasUpTo | Assets/BonesCubed/Runtime/Scripts/BlockList.cs:54-57 | one metadata entry per block so far |
| BlockLists.CacheStepAdvances | Assets/BonesCubed/Runtime/Scripts/BlockList.cs:40-59 | the cache starts empty and each pass of the loop advances it by one block |
| BlockLists.TablesAreDistinct | Assets/BonesCubed/Runtime/Scripts/BlockList.cs:49-53 | the model and material tables are duplicate-free and hold exactly the blocks' models and materials |
| BlockLists.MetaIsFinalLookup | Assets/BonesCubed/Runtime/Scripts/BlockList.cs:54-57 | entry i's lookups in the tables as they stood agree with lookups in the finished tables |
| BlockLists.MetaNamesBlock | Assets/BonesCubed/Runtime/Scripts/BlockList.cs:54-57 | entry i's model id is block i's model index plus one and its material id the material index, each cut to 16 bits; without wrap-around the model id is at least 1 and names block i's model, and the material id names its material |
| BlockLists.ModelTableInFirstUseOrder | Assets/BonesCubed/Runtime/Scripts/BlockList.cs:51 | models appear in the table in the order the blocks first use them |
| BlockLists.FirstNamed | Assets/BonesCubed/Runtime/Scripts/BlockList.cs:91-94 | −1 iff no block has the name; otherwise a block with the name and no earlier one |
| BlockLists.AddBlock | Assets/BonesCubed/Runtime/Scripts/BlockList.cs:51-57 | one loop pass advances the cache as `CacheStep` says |
| BlockLists.BuildCache | Assets/BonesCubed/Runtime/Scripts/BlockList.cs:45-58 | the loop builds the cache the blocks determine |
| BlockLists.CopyMetas | Assets/BonesCubed/Runtime/Scripts/BlockList.cs:82-84 | a new array holding the entries in order |
| BlockLists.FindBlock | Assets/BonesCubed/Runtime/Scripts/BlockList.cs:91-94 | the search loop returns the first block with the name, or −1 |
| BlockLists.BlockList.constructor | Assets/BonesCubed/Runtime/Scripts/BlockList.cs:21-34 | a block list over the given blocks with no cache loaded yet |
| BlockLists.BlockList.LoadCache | Assets/BonesCubed/Runtime/Scripts/BlockList.cs:40-59 | the first call builds the cache the blocks determine; later calls change nothing |
| BlockLists.BlockList.LoadBlockModels | Assets/BonesCubed/Runtime/Scripts/BlockList.cs:63-67 | loads the cache and hands on the distinct models in first-use order |
| BlockLists.BlockList.LoadBlockMaterials | Assets/BonesCubed/Runtime/Scripts/BlockList.cs:71-75 | loads the cache and returns the distinct materials in first-use order |
| BlockLists.BlockList.LoadBlockMetas | Assets/BonesCubed/Runtime/Scripts/BlockList.cs:79-85 | loads the cache and returns a new array with one metadata entry per block |
| BlockLists.BlockList.GetBlockID | Assets/BonesCubed/Runtime/Scripts/BlockList.cs:89-95 | the index of the first block with the name, or −1 |
| RuntimeBlockModels.MeshList.constructor | Runtime/BlockModel.cs:22 | the caller's mesh list, holding the given meshes |
| RuntimeBlockModels.Meshes | Runtime/BlockModel.cs:26-28 | the variants' static meshes in variant order |
| RuntimeBlockModels.EntriesUpToEntry | Runtime/BlockModel.cs:26-34 | after n variants there are n entries, and entry i was looked up right after variant i's mesh was registered |
| RuntimeBlockModels.VariantEntry | Runtime/BlockModel.cs:22-37 | one entry per variant, in order; entry i carries variant i's transform and the first index of its mesh in the final list, and that slot holds the mesh |
| RuntimeBlockModels.MeshListGrows | Runtime/BlockModel.cs:28 | the mesh list only grows: listed meshes keep their positions, every variant's mesh is listed afterwards, nothing else is added, and a duplicate-free list stays duplicate-free |
| RuntimeBlockModels.AddVariant | Runtime/BlockModel.cs:28-33 | registers the variant's mesh unless present and makes its entry from the list as it then stands |
| RuntimeBlockModels.BlockModel.constructor | Runtime/BlockModel.cs:18 | a block model over the given variants |
| RuntimeBlockModels.BlockModel.GetVariants | Runtime/BlockModel.cs:22-37 | the caller's mesh list gains the variants' meshes in first-use order, and the result has one entry per variant, each as `VariantEntry` states |
| Storage.WriteRule | Common/Storage/Block.cs:43-51 | a property write fails with a null reference exactly when the block has no type, with an argument error exactly when the type does not define the name, and otherwise keeps every override a defined, non-default value |
| Storage.ReadAfterWrite | Common/Storage/Block.cs:36-51 | after a successful write the property reads as the written value, and every other property reads as before |
| Storage.DefaultWriteRemovesOverride | Common/Storage/Block.cs:48-50 | writing a property's default leaves no override for it; writing any other value leaves one |
| Storage.ReadRule | Common/Storage/Block.cs:36-41 | with valid overrides a read succeeds exactly for the names the block type defines, a missing name is an argument error, and a block without a type fails every read |
| Storage.FreshTypeReadsDefaults | Common/Storage/Block.cs:24-29 | right after a type is set the overrides are valid and every defined property reads as the type's default |
| Storage.SlotOf | Common/Storage/Chunk.cs:22 | the indexer's z-major slot lies inside the 4096-entry array for every local position |
| Storage.SlotPos | Common/Storage/Chunk.cs:22 | a slot in range names a local position |
| Storage.SlotPosOfSlot | Common/Storage/Chunk.cs:22 | a local position's slot leads back to it and equals the shared flat index |
| Storage.SlotOfSlotPos | Common/Storage/Chunk.cs:22 | a slot's local position leads back to it, so slots and local positions correspond one to one |
| Storage.SlotInjective | Common/Storage/Chunk.cs:22 | distinct local positions read distinct slots |
| Storage.RankRule | Common/Storage/Chunk.cs:38 | the chunk iterator reaches each local position at its own step, inside the 4096 steps |
| Storage.Block.constructor | Common/Storage/Block.cs:60-64 | a block of the given chunk at the given world position, with no type and no overrides |
| Storage.Block.SetBlockType | Common/Storage/Block.cs:24-29 | a null type is rejected and changes nothing; a type replaces the old one and clears every override |
| Storage.Block.Set | Common/Storage/Block.cs:43-51 | on success the overrides are exactly the write's result and the property then reads as the written value; on failure nothing changes and the error is the write's error; the type never changes and the overrides stay valid |
| Storage.PlaceBlock | Common/Storage/Chunk.cs:40-41 | corrected (slot `p.z * 256 + p.y * 16 + p.x`; as written in `Storage.AsWrittenFill`): one step of the fill: the next local position gets its block and every earlier one keeps its block |
| Storage.FillColumn | Common/Storage/Chunk.cs:38-42 | corrected (slot `p.z * 256 + p.y * 16 + p.x`; as written in `Storage.AsWrittenFill`): after a column of 16 steps every local position reached so far holds a block of this chunk at the chunk position plus that local position |
| Storage.FillSlab | Common/Storage/Chunk.cs:38-42 | corrected (slot `p.z * 256 + p.y * 16 + p.x`; as written in `Storage.AsWrittenFill`): after a slab of 256 steps every local position reached so far holds its block |
| Storage.Chunk.constructor | Common/Storage/Chunk.cs:33-43 | corrected (slot `p.z * 256 + p.y * 16 + p.x`; as written in `Storage.AsWrittenFill`): with the slot the indexer reads, every local position holds a new block of this chunk standing at the chunk position plus that local position |
| Storage.Chunk.Get | Common/Storage/Chunk.cs:18-25 | the indexer succeeds exactly when the computed slot lies inside the array, and an out-of-range slot is an index error |
| Storage.LocalPositionFindsBlock | Common/Storage/Chunk.cs:18-25 | given a local position, the indexer of a filled chunk returns the block of that chunk standing at the chunk position plus that local position |
| Storage.AsWrittenColumn | Common/Storage/Chunk.cs:40-41 | as written, the column (x, z) writes only the slots of local (z, y, z), each holding the block made for (x, y, z); every other slot is unchanged |
| Storage.AsWrittenSlab | Common/Storage/Chunk.cs:38-42 | as written, the slab x writes only the slots with local x == z, holding the blocks made for (x, y, z) |
| Storage.AsWrittenFill | Common/Storage/Chunk.cs:33-43 | as written, only the 256 slots with local x == z ever receive a block, each holding the block made for (15, y, z); every other slot stays null |
| Storage.WorldPositionMissesBlock | Common/Storage/World.cs:25-28 | handing the indexer a world position misses for every chunk at non-negative coordinates other than the origin chunk: any block it returns stands elsewhere, and from the second layer along z it is out of range |
| Storage.WorldSlotMisses | Common/Storage/World.cs:27 | the slot arithmetic behind the miss: the slot of a world position in such a chunk names a different block, or lies past the array |
| Storage.World.constructor | Common/Storage/World.cs:8 | a world without chunks |
| Storage.World.GetChunk | Common/Storage/World.cs:12-22 | the chunk under the position's 16-aligned key; when absent, a new filled chunk is stored under that key and returned only if creation is requested, otherwise None and the world is unchanged |
| Storage.World.GetBlock | Common/Storage/World.cs:25-28 | corrected (the indexer gets the local position; as written in `Storage.World.GetBlockAsWritten`): the read never fails; a block is returned exactly when the chunk exists or is created, and it is the block the chunk's indexer gives for the position's local offset, standing at the requested world position; the chunk map is unchanged except for the one chunk created on request |
| Storage.World.GetBlockAsWritten | Common/Storage/World.cs:25-28 | as written: None when the chunk is missing and not created, and otherwise exactly what the chunk's indexer gives for the world position, an index error included; the chunk map is unchanged except for the one chunk created on request |
| Storage.ChunkKeyIsOrigin | Common/Storage/World.cs:14 | the key of a position is the origin of the 16-cube holding it, keys are their own keys, and the key plus the low four bits is the position |
| Storage.SameKeySameCube | Common/Storage/World.cs:14 | two positions share a chunk exactly when their coordinates agree after an arithmetic shift by 4 |
| ChunkWorlds.Chunk.constructor | Assets/BonesCubed/Common/Storage/World.cs:28 | a chunk of the given world at the given position, with no fields created and never disposed |
| ChunkWorlds.Chunk.Dispose | Assets/BonesCubed/Common/Storage/World.cs:61 | the chunk is disposed once more and nothing else about it changes |
| ChunkWorlds.World.constructor | Assets/BonesCubed/Common/Storage/World.cs:26-30 | a world with no stored chunks and a new void chunk at the default position whose fields were created exactly once |
| ChunkWorlds.World.CreateFields | Assets/BonesCubed/Common/Storage/World.cs:91 | the hook is applied once to the given chunk |
| ChunkWorlds.World.CreateFieldsVoid | Assets/BonesCubed/Common/Storage/World.cs:78-81 | the default void hook applies the standard hook once |
| ChunkWorlds.World.GetChunk | Assets/BonesCubed/Common/Storage/World.cs:39-51 | the chunk under the position's 16-aligned key; when absent, null without creation, otherwise a new chunk stored under that key with its fields created once; stored chunks and the void chunk are kept |
| ChunkWorlds.World.Dispose | Assets/BonesCubed/Common/Storage/World.cs:58-65 | every stored chunk is disposed exactly once, the map is emptied and the void chunk is disposed |
| ChunkWorlds.DisposeAll | Assets/BonesCubed/Common/Storage/World.cs:60-61 | each stored chunk is disposed exactly once, whatever order the map yields them in |

## Left out

- Floating-point geometry is not modelled.
  - `CalculateSegment`'s normal and centroid tests are the parameter `onFace`.
  - Vertex equality in the loader's duplicate scan is the parameter `same`.
  - The tangent of a quad is the function `tangentOf`.
  - The vertex translation by the voxel position is the parameter `translate`.
  - A variant's translation-rotation-scale matrix is the parameter `trs`.
  - Mesh bounds are not computed.
- Unity's `Mesh` and `Mesh.MeshData` objects are values holding the buffers and descriptors written to them. Reading a source mesh's vertex, normal, UV and tangent arrays in the loader is the given triangle list.
- Unity interprets a submesh descriptor whose `indexStart` is left unset and whose `firstVertex` carries the index offset. That interpretation lies outside the model; the descriptors are kept as the fields written.
- Job scheduling, `IJobParallelFor` batching, `JobHandle` chaining and the concurrent grid views are left out, because they concern parallelism only. Each job is modelled as its sequential `Execute`.
- Atomic safety handles are left out, except where a released handle reports a use after `Dispose`.
- Raw memory is modelled slot by slot and allocator labels are only recorded. `Malloc`, `Free` and `MemClear` are not modelled at the byte level. Element sizes appear only where the container list's copy length depends on them.
- C# 32-bit `int` overflow is not modelled: integers are unbounded. The `(ushort)` casts are modelled as reduction modulo 65536.
- `UnsafeInfiniteGrid3D.Dispose` and the newer world's `Dispose` walk a hash map whose order is unspecified. The model disposes every entry once, in an arbitrary order.
- `Directions.Opposite` has a null-return branch for a direction outside the six instances. That branch is unreachable with the enumeration, so it is left out.
- `GetVertex`, `GetIndex`, `VertexCount`, `AppendVertex` and `AppendIndex` belong to a `NativeMesh` revision that is not part of this model. `MeshBuffers.MeshBuffer` appends at the end of one vertex list and one index list in their place.
- The newer `Chunk` class and the block type interface are not part of this model.
  - A newer chunk is its owner, its position and counters of field creation and disposal.
  - A block type is its name and its default property table.
- The `CreateFields` hook is abstract in the source and is left to subclasses. The model counts its applications.
- `BlockModelVariant.Transform` in `Runtime/BlockModel.cs` is left out. It appears only as the `trs` parameter.
- ContainerLists.NativeContainerList.SpawnNewInstance: models the intended growth copy of `Count * SizeOf<T>()` bytes, not the `Count` bytes of NativeContainerList.cs:195; the as-written copy is `ContainerLists.AsWrittenGrowthLosesLastElement`.
- ContainerLists.NativeContainerList.Grow: models the same intended copy; the as-written copy is `ContainerLists.AsWrittenGrowthLosesLastElement`.
- NativeMeshes.NativeMesh.ApplyToMesh: models descriptor s written to slot s, not the `SetSubMesh(0, …)` of NativeMesh.cs:248; the as-written writes are `NativeMeshes.AsWrittenDescriptorsLoseSubmeshes`.
- Storage.PlaceBlock: models the slot `p.z * 256 + p.y * 16 + p.x` that the indexer reads, not the `p.z` of Chunk.cs:40; the as-written fill is `Storage.AsWrittenFill`.
- Storage.FillColumn: uses the corrected slot of `Storage.PlaceBlock`; the as-written fill is `Storage.AsWrittenFill`.
- Storage.FillSlab: uses the corrected slot of `Storage.PlaceBlock`; the as-written fill is `Storage.AsWrittenFill`.
- Storage.Chunk.constructor: uses the corrected slot of `Storage.PlaceBlock`; the as-written fill is `Storage.AsWrittenFill`.
- Storage.World.GetBlock: models the read at the position's offset inside its chunk, not the world position passed at World.cs:27; the as-written read is `Storage.World.GetBlockAsWritten`.
- The model is the build with `ENABLE_UNITY_COLLECTIONS_CHECKS` defined. In a build without that symbol the argument, bounds and allocator checks of both `NativeGrid3D` revisions, `NativeContainerList` and `NativeMesh` are compiled out. None of the exceptions they throw is then raised, and an out-of-range access reads or writes unchecked memory.
- BlockModelLoading.CalculateSegment: keeps the face tests abstract in `onFace`, so it does not by itself show the swapped z faces of LoadBlockModel.cs:159-161. The swap is stated on the table of tested normals, `BlockModelLoading.LoaderFaceNormal`, and the intended table is `BlockModelLoading.IntendedFaceNormal`.
- The occlusion and meshing jobs are modelled only for block ids that index the loaded model and atlas lists (`BlockOcclusion.IdsInRange`, `RegionMeshes.Ready`, `ChunkMeshes.Ready`). In the source an id past the end of those lists throws from the list indexer; that path is not modelled.
- BlockModelLoading.Execute: requires the source mesh to be a well-formed triangle list (whole triangles, each index naming a vertex). The loader reads `indices[i + k]` and the vertex it names without a check and relies on Unity's triangle topology for this; a malformed mesh is outside the model.

## Findings

| source | as written | input that shows it | evidently intended | confidence | as-written member | corrected member |
|---|---|---|---|---|---|---|
| Common/Native/NativeGrid3D.cs:38 | the bounds guard, `pos < (0,0,0)` or `pos >= size`, uses the all-axis comparisons, so it throws only when every coordinate is out of range; the guard exists only in a build with `ENABLE_UNITY_COLLECTIONS_CHECKS` | `(size.x, 0, 0)` in a grid with `size.y > 1` passes the guard and reads the cell of `(0, 1, 0)` | a position is rejected when any coordinate is outside `[0, size)`, as the newer `NativeGrid3D` revision does | not executed | LegacyNativeGrids.GuardLetsRowOverflowThrough | NativeGrids.GetFailures |
| Assets/BonesCubed/Common/Native/NativeContainerList.cs:195 | on growth `MemCpy` copies `Count` bytes into the new buffer | a list of 2-byte elements with `Count == 1`: the one element is not carried over | copy `Count * SizeOf<T>()` bytes, so every element survives the growth | not executed | ContainerLists.AsWrittenGrowthLosesLastElement | ContainerLists.GrowthPreservesElements |
| Assets/BonesCubed/Common/Native/NativeMesh.cs:248 | every submesh descriptor is written with `SetSubMesh(0, …)` | a mesh with two submeshes: slot 1 never gets a descriptor, and slot 0 ends up with the last submesh's | descriptor i goes to submesh slot i | not executed | NativeMeshes.AsWrittenDescriptorsLoseSubmeshes | NativeMeshes.IntendedDescriptorsSelectSubmeshes |
| Common/Storage/Chunk.cs:40 | the constructor stores each block at slot `p.z * 256 + p.y * 16 + p.z` | local `(1, 0, 0)`: its slot never receives a block, so the indexer returns null there | the slot `p.z * 256 + p.y * 16 + p.x` that the indexer reads | not executed | Storage.AsWrittenFill | Storage.Chunk.constructor |
| Common/Storage/World.cs:27 | `GetBlock` hands the chunk's indexer the world position | `(16, 0, 0)` reads slot 16, which holds the block at `(16, 1, 0)`; `(0, 0, 16)` reads slot 4096, past the array | give the indexer the position's offset inside its chunk | not executed | Storage.World.GetBlockAsWritten | Storage.World.GetBlock |
| Assets/BonesCubed/Common/Jobs/LoadBlockModel.cs:159 | the face on z = 1 with normal (0, 0, 1) is tagged North and the face on z = 0 with normal (0, 0, −1) South, while `Direction.North` is (0, 0, −1) | a full cube next to a neighbour toward North: occlusion asks whether the neighbour has a South segment, which as written is its far face at z = 0, not the face touching the cube | the face tagged North faces −z and the one tagged South faces +z, so a neighbour's opposite-flag face is the one that touches | not executed | BlockModelLoading.AsWrittenZFacesSwapped | BlockModelLoading.IntendedFaceNormals |
