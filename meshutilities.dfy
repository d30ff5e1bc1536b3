/**
  Quad and cube emission of the older code base (Common/Utils/MeshUtilities.cs), with the
  quad and cube descriptions it reads (Common/DataTypes/CubeMeshData.cs).

  Single-precision floats are modelled as exact reals; positions, normals and texture
  coordinates are only carried around here, so rounding plays no part. The tangent, which
  the source derives with normalisations and a cross product, is the abstract function
  `tangentOf` of the quad's first three corners, its normal and its texture data.
*/
module MeshUtilities {
  import opened IntMath
  import opened Coordinates
  import opened MeshBuffers
  import Directions

  datatype Float2 = Float2(x: real, y: real)
  datatype Float3 = Float3(x: real, y: real, z: real)

  /** A quad's texture data: a negative texture index leaves the quad out. */
  datatype QuadMeshData = QuadMeshData(textureIndex: int, uv0: Float2, uv1: Float2, uv2: Float2, uv3: Float2)

  /** A cube's centre, size and six faces. */
  datatype CubeMeshData = CubeMeshData(
    center: Float3, size: Float3,
    northFace: QuadMeshData, eastFace: QuadMeshData, southFace: QuadMeshData,
    westFace: QuadMeshData, topFace: QuadMeshData, bottomFace: QuadMeshData)

  /** A vertex of the generated mesh. */
  datatype VoxelVertex<T> = VoxelVertex(position: Float3, normal: Float3, tangent: T, uv: Float3)

  /** `new QuadMeshData(textureIndex)`: the default texture corners. */
  function DefaultQuad(textureIndex: int): QuadMeshData {
    QuadMeshData(textureIndex, Float2(0.0, 0.0), Float2(0.0, 1.0), Float2(1.0, 1.0), Float2(1.0, 0.0))
  }

  /** `new CubeMeshData(center, size)`: every face with texture index 0. */
  function NewCube(center: Float3, size: Float3): CubeMeshData {
    CubeMeshData(center, size, DefaultQuad(0), DefaultQuad(0), DefaultQuad(0), DefaultQuad(0), DefaultQuad(0), DefaultQuad(0))
  }

  /** The six faces in the order `AddCube` emits them: north, east, south, west, top, bottom. */
  function Faces(cube: CubeMeshData): (r: seq<QuadMeshData>)
    ensures |r| == 6
  {
    [cube.northFace, cube.eastFace, cube.southFace, cube.westFace, cube.topFace, cube.bottomFace]
  }

  /** The normals `AddCube` passes, in the same order. */
  const FaceNormals: seq<Float3> := [
    Float3(0.0, 0.0, -1.0), Float3(1.0, 0.0, 0.0), Float3(0.0, 0.0, 1.0),
    Float3(-1.0, 0.0, 0.0), Float3(0.0, 1.0, 0.0), Float3(0.0, -1.0, 0.0)]

  /** An integer vector as a float vector. */
  function AsFloat3(p: BlockPos): Float3 {
    Float3(p.x as real, p.y as real, p.z as real)
  }

  /** Face k's normal is the vector of direction k of the direction table (North, East, South, West, Up, Down). */
  lemma FaceNormalsAreDirections(k: int)
    requires 0 <= k < 6
    ensures FaceNormals[k] == AsFloat3(Directions.AsBlockPos(Directions.All[k]))
  {
  }

  /** The six index values of a quad whose first vertex is number `base`, each cast to `ushort`. */
  function QuadIndices(base: int): (r: seq<int>)
    ensures |r| == 6 && forall j :: 0 <= j < 6 ==> 0 <= r[j] < 65536
  {
    [ToUShort(base + 0), ToUShort(base + 1), ToUShort(base + 2),
     ToUShort(base + 0), ToUShort(base + 2), ToUShort(base + 3)]
  }

  /** The four vertices of a quad: its corners, its normal and tangent, and the texture index as third uv coordinate. */
  function QuadVertices<T>(v0: Float3, v1: Float3, v2: Float3, v3: Float3, normal: Float3, quad: QuadMeshData, tangent: T): (r: seq<VoxelVertex<T>>)
    ensures |r| == 4
  {
    var w := quad.textureIndex as real;
    [VoxelVertex(v0, normal, tangent, Float3(quad.uv0.x, quad.uv0.y, w)),
     VoxelVertex(v1, normal, tangent, Float3(quad.uv1.x, quad.uv1.y, w)),
     VoxelVertex(v2, normal, tangent, Float3(quad.uv2.x, quad.uv2.y, w)),
     VoxelVertex(v3, normal, tangent, Float3(quad.uv3.x, quad.uv3.y, w))]
  }

  /** What `AddQuad` does to the mesh contents. */
  function Quad<T>(m: MeshData<VoxelVertex<T>>, v0: Float3, v1: Float3, v2: Float3, v3: Float3, normal: Float3,
                   quad: QuadMeshData, tangentOf: (Float3, Float3, Float3, Float3, QuadMeshData) -> T): MeshData<VoxelVertex<T>>
  {
    if quad.textureIndex < 0 then m
    else MeshData(m.vertices + QuadVertices(v0, v1, v2, v3, normal, quad, tangentOf(v0, v1, v2, normal, quad)),
                  m.indices + QuadIndices(|m.vertices|))
  }

  /**
    A quad with a negative texture index changes nothing; any other appends four vertices and
    six indices behind what was there. The indices are two triangles, corners (0, 1, 2) and
    (0, 2, 3), counted from the vertex count before the call; while that count leaves room
    below 65536 each index names one of the four vertices the same call appended. Every new
    vertex carries the quad's normal and its texture index.
  */
  lemma QuadShape<T>(m: MeshData<VoxelVertex<T>>, v0: Float3, v1: Float3, v2: Float3, v3: Float3, normal: Float3,
                     quad: QuadMeshData, tangentOf: (Float3, Float3, Float3, Float3, QuadMeshData) -> T)
    ensures quad.textureIndex < 0 ==> Quad(m, v0, v1, v2, v3, normal, quad, tangentOf) == m
    ensures quad.textureIndex >= 0 ==>
      var r := Quad(m, v0, v1, v2, v3, normal, quad, tangentOf);
      var b := |m.vertices|;
      && |r.vertices| == b + 4 && r.vertices[..b] == m.vertices
      && |r.indices| == |m.indices| + 6 && r.indices[..|m.indices|] == m.indices
      && (b + 4 <= 65536 ==> r.indices[|m.indices|..] == [b, b + 1, b + 2, b, b + 2, b + 3])
      && [r.vertices[b].position, r.vertices[b + 1].position, r.vertices[b + 2].position, r.vertices[b + 3].position] == [v0, v1, v2, v3]
      && forall j :: b <= j < b + 4 ==> r.vertices[j].normal == normal && r.vertices[j].uv.z == quad.textureIndex as real
  {
    if quad.textureIndex >= 0 {
      var r := Quad(m, v0, v1, v2, v3, normal, quad, tangentOf);
      assert r.vertices[..|m.vertices|] == m.vertices;
      assert r.indices[..|m.indices|] == m.indices;
    }
  }

  /** The `ushort` cast of the quad indices wraps: a quad whose first vertex is number 65535 names vertex 0 next. */
  lemma QuadIndicesWrap()
    ensures QuadIndices(65535)[1] == 0 && QuadIndices(65535)[5] == 2
  {
  }

  /** `AddQuad`. */
  method AddQuad<T>(mesh: MeshBuffer<VoxelVertex<T>>, v0: Float3, v1: Float3, v2: Float3, v3: Float3, normal: Float3,
                    quad: QuadMeshData, tangentOf: (Float3, Float3, Float3, Float3, QuadMeshData) -> T)
    modifies mesh
    ensures mesh.Data() == Quad(old(mesh.Data()), v0, v1, v2, v3, normal, quad, tangentOf)
  {
    if quad.textureIndex < 0 {
      return;
    }
    var vertexCount := mesh.VertexCount();
    mesh.AppendIndex(ToUShort(vertexCount + 0));
    mesh.AppendIndex(ToUShort(vertexCount + 1));
    mesh.AppendIndex(ToUShort(vertexCount + 2));
    mesh.AppendIndex(ToUShort(vertexCount + 0));
    mesh.AppendIndex(ToUShort(vertexCount + 2));
    mesh.AppendIndex(ToUShort(vertexCount + 3));
    var tangent := tangentOf(v0, v1, v2, normal, quad);
    var w := quad.textureIndex as real;
    mesh.AppendVertex(VoxelVertex(v0, normal, tangent, Float3(quad.uv0.x, quad.uv0.y, w)));
    mesh.AppendVertex(VoxelVertex(v1, normal, tangent, Float3(quad.uv1.x, quad.uv1.y, w)));
    mesh.AppendVertex(VoxelVertex(v2, normal, tangent, Float3(quad.uv2.x, quad.uv2.y, w)));
    mesh.AppendVertex(VoxelVertex(v3, normal, tangent, Float3(quad.uv3.x, quad.uv3.y, w)));
  }

  /** Corner (sx, sy, sz) of the cube, each sign -1 or 1 picking the low or high side. */
  function Corner(cube: CubeMeshData, sx: int, sy: int, sz: int): Float3 {
    Float3(cube.center.x + sx as real * (cube.size.x / 2.0),
           cube.center.y + sy as real * (cube.size.y / 2.0),
           cube.center.z + sz as real * (cube.size.z / 2.0))
  }

  /** What `AddCube` does to the mesh contents: the six quads, north to bottom. */
  function Cube<T>(m: MeshData<VoxelVertex<T>>, cube: CubeMeshData, tangentOf: (Float3, Float3, Float3, Float3, QuadMeshData) -> T): MeshData<VoxelVertex<T>> {
    var v0, v1, v2, v3 := Corner(cube, -1, -1, -1), Corner(cube, -1, -1, 1), Corner(cube, -1, 1, -1), Corner(cube, -1, 1, 1);
    var v4, v5, v6, v7 := Corner(cube, 1, -1, -1), Corner(cube, 1, -1, 1), Corner(cube, 1, 1, -1), Corner(cube, 1, 1, 1);
    var m1 := Quad(m, v7, v3, v1, v5, FaceNormals[0], cube.northFace, tangentOf);
    var m2 := Quad(m1, v6, v7, v5, v4, FaceNormals[1], cube.eastFace, tangentOf);
    var m3 := Quad(m2, v2, v6, v4, v0, FaceNormals[2], cube.southFace, tangentOf);
    var m4 := Quad(m3, v3, v2, v0, v1, FaceNormals[3], cube.westFace, tangentOf);
    var m5 := Quad(m4, v3, v7, v6, v2, FaceNormals[4], cube.topFace, tangentOf);
    Quad(m5, v0, v4, v5, v1, FaceNormals[5], cube.bottomFace, tangentOf)
  }

  /** The number of the first k faces that are drawn. */
  function DrawnFaces(faces: seq<QuadMeshData>, k: nat): (r: nat)
    requires k <= |faces|
    ensures r <= k
  {
    if k == 0 then 0 else DrawnFaces(faces, k - 1) + (if faces[k - 1].textureIndex >= 0 then 1 else 0)
  }

  /** One quad adds four vertices and six indices when drawn, and nothing otherwise. */
  lemma QuadCounts<T>(m: MeshData<VoxelVertex<T>>, v0: Float3, v1: Float3, v2: Float3, v3: Float3, normal: Float3,
                      quad: QuadMeshData, tangentOf: (Float3, Float3, Float3, Float3, QuadMeshData) -> T)
    ensures var r := Quad(m, v0, v1, v2, v3, normal, quad, tangentOf);
      var d := if quad.textureIndex >= 0 then 1 else 0;
      |r.vertices| == |m.vertices| + 4 * d && |r.indices| == |m.indices| + 6 * d
  {
  }

  /** A cube adds four vertices and six indices per drawn face: 24 and 36 with all six faces on. */
  lemma CubeCounts<T>(m: MeshData<VoxelVertex<T>>, cube: CubeMeshData, tangentOf: (Float3, Float3, Float3, Float3, QuadMeshData) -> T)
    ensures var r := Cube(m, cube, tangentOf);
      var n := DrawnFaces(Faces(cube), 6);
      |r.vertices| == |m.vertices| + 4 * n && |r.indices| == |m.indices| + 6 * n
  {
    var v0, v1, v2, v3 := Corner(cube, -1, -1, -1), Corner(cube, -1, -1, 1), Corner(cube, -1, 1, -1), Corner(cube, -1, 1, 1);
    var v4, v5, v6, v7 := Corner(cube, 1, -1, -1), Corner(cube, 1, -1, 1), Corner(cube, 1, 1, -1), Corner(cube, 1, 1, 1);
    var m1 := Quad(m, v7, v3, v1, v5, FaceNormals[0], cube.northFace, tangentOf);
    var m2 := Quad(m1, v6, v7, v5, v4, FaceNormals[1], cube.eastFace, tangentOf);
    var m3 := Quad(m2, v2, v6, v4, v0, FaceNormals[2], cube.southFace, tangentOf);
    var m4 := Quad(m3, v3, v2, v0, v1, FaceNormals[3], cube.westFace, tangentOf);
    var m5 := Quad(m4, v3, v7, v6, v2, FaceNormals[4], cube.topFace, tangentOf);
    QuadCounts(m, v7, v3, v1, v5, FaceNormals[0], cube.northFace, tangentOf);
    QuadCounts(m1, v6, v7, v5, v4, FaceNormals[1], cube.eastFace, tangentOf);
    QuadCounts(m2, v2, v6, v4, v0, FaceNormals[2], cube.southFace, tangentOf);
    QuadCounts(m3, v3, v2, v0, v1, FaceNormals[3], cube.westFace, tangentOf);
    QuadCounts(m4, v3, v7, v6, v2, FaceNormals[4], cube.topFace, tangentOf);
    QuadCounts(m5, v0, v4, v5, v1, FaceNormals[5], cube.bottomFace, tangentOf);
    var fs := Faces(cube);
    assert DrawnFaces(fs, 1) == DrawnFaces(fs, 0) + (if fs[0].textureIndex >= 0 then 1 else 0);
    assert DrawnFaces(fs, 2) == DrawnFaces(fs, 1) + (if fs[1].textureIndex >= 0 then 1 else 0);
    assert DrawnFaces(fs, 3) == DrawnFaces(fs, 2) + (if fs[2].textureIndex >= 0 then 1 else 0);
    assert DrawnFaces(fs, 4) == DrawnFaces(fs, 3) + (if fs[3].textureIndex >= 0 then 1 else 0);
    assert DrawnFaces(fs, 5) == DrawnFaces(fs, 4) + (if fs[4].textureIndex >= 0 then 1 else 0);
  }

  /**
    With every face drawn, the cube's quads come in the order north, east, south, west, top,
    bottom: the four vertices of quad k carry face k's normal and texture index.
  */
  lemma CubeFaceOrder<T>(m: MeshData<VoxelVertex<T>>, cube: CubeMeshData, tangentOf: (Float3, Float3, Float3, Float3, QuadMeshData) -> T, k: int, j: int)
    requires forall f :: 0 <= f < 6 ==> Faces(cube)[f].textureIndex >= 0
    requires 0 <= k < 6 && 0 <= j < 4
    ensures var r := Cube(m, cube, tangentOf);
      && |m.vertices| + 4 * k + j < |r.vertices|
      && r.vertices[|m.vertices| + 4 * k + j].normal == FaceNormals[k]
      && r.vertices[|m.vertices| + 4 * k + j].uv.z == Faces(cube)[k].textureIndex as real
  {
    assert Faces(cube)[0].textureIndex >= 0 && Faces(cube)[1].textureIndex >= 0 && Faces(cube)[2].textureIndex >= 0;
    assert Faces(cube)[3].textureIndex >= 0 && Faces(cube)[4].textureIndex >= 0 && Faces(cube)[5].textureIndex >= 0;
    var v0, v1, v2, v3 := Corner(cube, -1, -1, -1), Corner(cube, -1, -1, 1), Corner(cube, -1, 1, -1), Corner(cube, -1, 1, 1);
    var v4, v5, v6, v7 := Corner(cube, 1, -1, -1), Corner(cube, 1, -1, 1), Corner(cube, 1, 1, -1), Corner(cube, 1, 1, 1);
    var m1 := Quad(m, v7, v3, v1, v5, FaceNormals[0], cube.northFace, tangentOf);
    var m2 := Quad(m1, v6, v7, v5, v4, FaceNormals[1], cube.eastFace, tangentOf);
    var m3 := Quad(m2, v2, v6, v4, v0, FaceNormals[2], cube.southFace, tangentOf);
    var m4 := Quad(m3, v3, v2, v0, v1, FaceNormals[3], cube.westFace, tangentOf);
    var m5 := Quad(m4, v3, v7, v6, v2, FaceNormals[4], cube.topFace, tangentOf);
    var r := Quad(m5, v0, v4, v5, v1, FaceNormals[5], cube.bottomFace, tangentOf);
    var b := |m.vertices|;
    assert r.vertices == m.vertices
      + QuadVertices(v7, v3, v1, v5, FaceNormals[0], cube.northFace, tangentOf(v7, v3, v1, FaceNormals[0], cube.northFace))
      + QuadVertices(v6, v7, v5, v4, FaceNormals[1], cube.eastFace, tangentOf(v6, v7, v5, FaceNormals[1], cube.eastFace))
      + QuadVertices(v2, v6, v4, v0, FaceNormals[2], cube.southFace, tangentOf(v2, v6, v4, FaceNormals[2], cube.southFace))
      + QuadVertices(v3, v2, v0, v1, FaceNormals[3], cube.westFace, tangentOf(v3, v2, v0, FaceNormals[3], cube.westFace))
      + QuadVertices(v3, v7, v6, v2, FaceNormals[4], cube.topFace, tangentOf(v3, v7, v6, FaceNormals[4], cube.topFace))
      + QuadVertices(v0, v4, v5, v1, FaceNormals[5], cube.bottomFace, tangentOf(v0, v4, v5, FaceNormals[5], cube.bottomFace));
  }

  /** `AddCube`: the six `AddQuad` calls, north, east, south, west, top, bottom. */
  method AddCube<T>(mesh: MeshBuffer<VoxelVertex<T>>, cube: CubeMeshData, tangentOf: (Float3, Float3, Float3, Float3, QuadMeshData) -> T)
    modifies mesh
    ensures mesh.Data() == Cube(old(mesh.Data()), cube, tangentOf)
  {
    var v0, v1, v2, v3 := Corner(cube, -1, -1, -1), Corner(cube, -1, -1, 1), Corner(cube, -1, 1, -1), Corner(cube, -1, 1, 1);
    var v4, v5, v6, v7 := Corner(cube, 1, -1, -1), Corner(cube, 1, -1, 1), Corner(cube, 1, 1, -1), Corner(cube, 1, 1, 1);
    AddQuad(mesh, v7, v3, v1, v5, FaceNormals[0], cube.northFace, tangentOf);
    AddQuad(mesh, v6, v7, v5, v4, FaceNormals[1], cube.eastFace, tangentOf);
    AddQuad(mesh, v2, v6, v4, v0, FaceNormals[2], cube.southFace, tangentOf);
    AddQuad(mesh, v3, v2, v0, v1, FaceNormals[3], cube.westFace, tangentOf);
    AddQuad(mesh, v3, v7, v6, v2, FaceNormals[4], cube.topFace, tangentOf);
    AddQuad(mesh, v0, v4, v5, v1, FaceNormals[5], cube.bottomFace, tangentOf);
  }
}
