/**
  The chunk mesher of the older code base (Common/Jobs/GenerateChunkMesh.cs): every solid
  voxel of the 16 x 16 x 16 chunk becomes a unit cube centred in its cell, with a face left out
  (texture index -1) wherever the neighbour across it is solid.

  The surrounding chunk grid of block data is read through `GetLocalBlock`; here that read is
  the function `chunkData`, giving the stored byte of each block's data (decoded as in
  BlockMeshes). Neighbours are found with the `pos + direction` operator of the older
  direction table.
*/
module SolidChunkMeshes {
  import opened Coordinates
  import opened Directions
  import opened ChunkLoops
  import opened MeshBuffers
  import opened MeshUtilities
  import opened BlockMeshes

  /** The tangent function of the quads, as in MeshUtilities. */
  type TangentOf<T> = (Float3, Float3, Float3, Float3, QuadMeshData) -> T

  /** The texture index of the face toward `d`: -1 (left out) when the neighbour there is solid, else 0. */
  function FaceTexture(chunkData: BlockPos -> int, pos: BlockPos, d: Direction): int {
    if IsSolidByte(chunkData(Step(pos, d))) then -1 else 0
  }

  /** The cube the loop body builds for the voxel at `pos`. */
  function CubeAt(chunkData: BlockPos -> int, pos: BlockPos): (r: CubeMeshData)
    ensures forall k :: 0 <= k < 6 ==> Faces(r)[k] == DefaultQuad(FaceTexture(chunkData, pos, All[k]))
  {
    var cube := NewCube(Float3(pos.x as real + 0.5, pos.y as real + 0.5, pos.z as real + 0.5), Float3(1.0, 1.0, 1.0));
    cube.(northFace := cube.northFace.(textureIndex := FaceTexture(chunkData, pos, North)),
          eastFace := cube.eastFace.(textureIndex := FaceTexture(chunkData, pos, East)),
          southFace := cube.southFace.(textureIndex := FaceTexture(chunkData, pos, South)),
          westFace := cube.westFace.(textureIndex := FaceTexture(chunkData, pos, West)),
          topFace := cube.topFace.(textureIndex := FaceTexture(chunkData, pos, Up)),
          bottomFace := cube.bottomFace.(textureIndex := FaceTexture(chunkData, pos, Down)))
  }

  /**
    The face rule: face k of the voxel's cube (north, east, south, west, top, bottom) has
    texture index -1 exactly when the neighbour in direction k is solid, and 0 otherwise; the
    cube is the unit cube of the voxel's cell.
  */
  lemma CubeAtRule(chunkData: BlockPos -> int, pos: BlockPos, k: int)
    requires 0 <= k < 6
    ensures var t := Faces(CubeAt(chunkData, pos))[k].textureIndex;
      (t == -1 <==> IsSolidByte(chunkData(Step(pos, All[k])))) && (t == 0 <==> !IsSolidByte(chunkData(Step(pos, All[k]))))
    ensures Corner(CubeAt(chunkData, pos), -1, -1, -1) == Float3(pos.x as real, pos.y as real, pos.z as real)
    ensures Corner(CubeAt(chunkData, pos), 1, 1, 1) == Float3(pos.x as real + 1.0, pos.y as real + 1.0, pos.z as real + 1.0)
  {
  }

  /** The number of the six neighbours that are not solid. */
  function OpenNeighbours(chunkData: BlockPos -> int, pos: BlockPos, k: nat): (r: nat)
    requires k <= 6
    ensures r <= k
  {
    if k == 0 then 0
    else OpenNeighbours(chunkData, pos, k - 1) + (if IsSolidByte(chunkData(Step(pos, All[k - 1]))) then 0 else 1)
  }

  /** The drawn faces of the voxel's cube are its open neighbours. */
  lemma {:induction false} DrawnFacesAreOpenNeighbours(chunkData: BlockPos -> int, pos: BlockPos, k: nat)
    requires k <= 6
    ensures DrawnFaces(Faces(CubeAt(chunkData, pos)), k) == OpenNeighbours(chunkData, pos, k)
  {
    if k > 0 {
      DrawnFacesAreOpenNeighbours(chunkData, pos, k - 1);
    }
  }

  /** One pass of the loop body: a non-solid voxel is skipped, a solid one adds its cube. */
  function VoxelStep<T>(chunkData: BlockPos -> int, tangentOf: TangentOf<T>, m: MeshData<VoxelVertex<T>>, pos: BlockPos): MeshData<VoxelVertex<T>> {
    if !IsSolidByte(chunkData(pos)) then m
    else Cube(m, CubeAt(chunkData, pos), tangentOf)
  }

  /**
    A non-solid voxel adds nothing; a solid one adds one quad (four vertices, six indices) per
    neighbour that is not solid.
  */
  lemma VoxelStepCounts<T>(chunkData: BlockPos -> int, tangentOf: TangentOf<T>, m: MeshData<VoxelVertex<T>>, pos: BlockPos)
    ensures !IsSolidByte(chunkData(pos)) ==> VoxelStep(chunkData, tangentOf, m, pos) == m
    ensures var r := VoxelStep(chunkData, tangentOf, m, pos);
      var n := if IsSolidByte(chunkData(pos)) then OpenNeighbours(chunkData, pos, 6) else 0;
      |r.vertices| == |m.vertices| + 4 * n && |r.indices| == |m.indices| + 6 * n
  {
    if IsSolidByte(chunkData(pos)) {
      CubeCounts(m, CubeAt(chunkData, pos), tangentOf);
      DrawnFacesAreOpenNeighbours(chunkData, pos, 6);
    }
  }

  /** The mesh after the first n steps of the x / y / z loops. */
  function BuildUpTo<T>(chunkData: BlockPos -> int, tangentOf: TangentOf<T>, start: MeshData<VoxelVertex<T>>, n: nat): MeshData<VoxelVertex<T>>
    requires n <= ChunkVolume
  {
    if n == 0 then start
    else VoxelStep(chunkData, tangentOf, BuildUpTo(chunkData, tangentOf, start, n - 1), LocalAt(n - 1))
  }

  /** The number of quads the first n steps emit: one per open face of each solid voxel. */
  function QuadsUpTo(chunkData: BlockPos -> int, n: nat): (r: nat)
    requires n <= ChunkVolume
  {
    if n == 0 then 0
    else
      var pos := LocalAt(n - 1);
      QuadsUpTo(chunkData, n - 1) + (if IsSolidByte(chunkData(pos)) then OpenNeighbours(chunkData, pos, 6) else 0)
  }

  /** The mesh grows by four vertices and six indices per emitted quad. */
  lemma {:induction false} BuildCounts<T>(chunkData: BlockPos -> int, tangentOf: TangentOf<T>, start: MeshData<VoxelVertex<T>>, n: nat)
    requires n <= ChunkVolume
    ensures var r := BuildUpTo(chunkData, tangentOf, start, n);
      |r.vertices| == |start.vertices| + 4 * QuadsUpTo(chunkData, n)
      && |r.indices| == |start.indices| + 6 * QuadsUpTo(chunkData, n)
  {
    if n > 0 {
      BuildCounts(chunkData, tangentOf, start, n - 1);
      VoxelStepCounts(chunkData, tangentOf, BuildUpTo(chunkData, tangentOf, start, n - 1), LocalAt(n - 1));
    }
  }

  /** The loop body at one position. */
  method DrawVoxel<T>(chunkData: BlockPos -> int, tangentOf: TangentOf<T>, pos: BlockPos, mesh: MeshBuffer<VoxelVertex<T>>)
    modifies mesh
    ensures mesh.Data() == VoxelStep(chunkData, tangentOf, old(mesh.Data()), pos)
  {
    if !IsSolidByte(chunkData(pos)) {
      return;
    }
    var center := Float3(pos.x as real + 0.5, pos.y as real + 0.5, pos.z as real + 0.5);
    var size := Float3(1.0, 1.0, 1.0);
    var cube := NewCube(center, size);
    cube := cube.(northFace := cube.northFace.(textureIndex := if IsSolidByte(chunkData(Step(pos, North))) then -1 else 0));
    cube := cube.(eastFace := cube.eastFace.(textureIndex := if IsSolidByte(chunkData(Step(pos, East))) then -1 else 0));
    cube := cube.(southFace := cube.southFace.(textureIndex := if IsSolidByte(chunkData(Step(pos, South))) then -1 else 0));
    cube := cube.(westFace := cube.westFace.(textureIndex := if IsSolidByte(chunkData(Step(pos, West))) then -1 else 0));
    cube := cube.(topFace := cube.topFace.(textureIndex := if IsSolidByte(chunkData(Step(pos, Up))) then -1 else 0));
    cube := cube.(bottomFace := cube.bottomFace.(textureIndex := if IsSolidByte(chunkData(Step(pos, Down))) then -1 else 0));
    assert cube == CubeAt(chunkData, pos);
    AddCube(mesh, cube, tangentOf);
  }

  /** The innermost loop: the sixteen voxels of one (x, y) column, z ascending; `n` counts the steps before it. */
  method DrawColumn<T>(chunkData: BlockPos -> int, tangentOf: TangentOf<T>, x: int, y: int, mesh: MeshBuffer<VoxelVertex<T>>, ghost start: MeshData<VoxelVertex<T>>, ghost n: nat)
    requires 0 <= x < 16 && 0 <= y < 16 && n == x * 256 + y * 16
    requires mesh.Data() == BuildUpTo(chunkData, tangentOf, start, n)
    modifies mesh
    ensures mesh.Data() == BuildUpTo(chunkData, tangentOf, start, n + 16)
  {
    for z := 0 to 16
      invariant mesh.Data() == BuildUpTo(chunkData, tangentOf, start, n + z)
    {
      var pos := BlockPos(x, y, z);
      LocalAtStepOf(pos);
      assert LocalAt(n + z) == pos;
      DrawVoxel(chunkData, tangentOf, pos, mesh);
    }
  }

  /** The middle loop: the sixteen columns of one x slab, y ascending; `n` counts the steps before it. */
  method DrawSlab<T>(chunkData: BlockPos -> int, tangentOf: TangentOf<T>, x: int, mesh: MeshBuffer<VoxelVertex<T>>, ghost start: MeshData<VoxelVertex<T>>, ghost n: nat)
    requires 0 <= x < 16 && n == x * 256
    requires mesh.Data() == BuildUpTo(chunkData, tangentOf, start, n)
    modifies mesh
    ensures mesh.Data() == BuildUpTo(chunkData, tangentOf, start, n + 256)
  {
    ghost var k := n;
    for y := 0 to 16
      invariant k == n + y * 16
      invariant mesh.Data() == BuildUpTo(chunkData, tangentOf, start, k)
    {
      DrawColumn(chunkData, tangentOf, x, y, mesh, start, k);
      k := k + 16;
    }
  }

  /** `Execute`: the voxels of the chunk in loop order, each handled as `VoxelStep` says. */
  method Execute<T>(chunkData: BlockPos -> int, tangentOf: TangentOf<T>, mesh: MeshBuffer<VoxelVertex<T>>)
    modifies mesh
    ensures mesh.Data() == BuildUpTo(chunkData, tangentOf, old(mesh.Data()), ChunkVolume)
  {
    ghost var start := mesh.Data();
    ghost var k := 0;
    for x := 0 to 16
      invariant k == x * 256
      invariant mesh.Data() == BuildUpTo(chunkData, tangentOf, start, k)
    {
      DrawSlab(chunkData, tangentOf, x, mesh, start, k);
      k := k + 256;
    }
  }
}
