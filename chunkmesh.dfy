/**
  The chunk mesher of the job-based code base (Assets/BonesCubed/Common/Jobs/GenerateChunkMesh.cs).
  For every voxel of a 16 x 16 x 16 chunk it looks up the voxel's model pointer in the atlas,
  works out which segments of the model show (a face is hidden when the neighbour across it
  covers the facing side), and copies the model into the chunk mesh: every vertex, translated
  to the voxel, and those indices whose vertex lies in a shown segment.

  The surrounding chunk grid of model ids is read through `GetLocalBlock`; here that read is
  the function `chunkData` (its addressing is modelled in SurroundingChunks). The atlas mesh is
  read through `GetVertex` and `GetIndex`, members of a `NativeMesh` revision that is not part
  of this model; here they are plain sequence reads. A vertex keeps its floating-point payload
  abstract (`data`) next to its segment flag, and the translation by the voxel position is the
  parameter `translate`.
*/
module ChunkMeshes {
  import opened Coordinates
  import opened Directions
  import opened ChunkLoops
  import opened MeshBuffers
  import Seg = OccludingSegments
  import BlockModels
  import BlockOcclusion
  import D = CoreDirections

  /** Where a model's vertices and indices sit in the atlas, and which segments it has and covers. */
  datatype OccludingBlockModel = OccludingBlockModel(
    vertexOffset: int, vertexCount: int, indexOffset: int, indexCount: int,
    containedSegments: Seg.Mask, occludingSegments: Seg.Mask)

  /** An atlas vertex: its payload and the segment it belongs to. */
  datatype OccludingVoxelVertex<V> = OccludingVoxelVertex(data: V, segment: Seg.Mask)

  /** The job's inputs. */
  datatype Job<!V> = Job(
    chunkData: BlockPos -> int,
    modelPointers: seq<OccludingBlockModel>,
    atlasVertices: seq<OccludingVoxelVertex<V>>,
    atlasIndices: seq<int>,
    translate: (V, BlockPos) -> V)

  /** The reads the loops make for a model stay inside the atlas. */
  predicate PointerInAtlas<V>(m: OccludingBlockModel, vertices: seq<OccludingVoxelVertex<V>>, indices: seq<int>) {
    && 0 <= m.vertexOffset && 0 <= m.vertexCount && m.vertexOffset + m.vertexCount <= |vertices|
    && 0 <= m.indexOffset && 0 <= m.indexCount && m.indexOffset + m.indexCount <= |indices|
    && forall i :: m.indexOffset <= i < m.indexOffset + m.indexCount ==>
         0 <= indices[i] && indices[i] + m.vertexOffset < |vertices|
  }

  /** Every id is 0 (empty) or names a model pointer, and every pointer reads inside the atlas. */
  ghost predicate Ready<V>(job: Job<V>) {
    && (forall p :: 0 <= job.chunkData(p) <= |job.modelPointers|)
    && (forall j :: 0 <= j < |job.modelPointers| ==> PointerInAtlas(job.modelPointers[j], job.atlasVertices, job.atlasIndices))
  }

  /** `IsSegmentHidden`: the neighbour across `face` is solid and its model covers `segment`. */
  predicate IsSegmentHidden<V>(job: Job<V>, pos: BlockPos, face: Direction, segment: Seg.Mask)
    requires Ready(job)
  {
    var modelIndex := job.chunkData(Step(pos, face));
    if modelIndex == 0 then false
    else job.modelPointers[modelIndex - 1].occludingSegments & segment > 0
  }

  /** One line of the mask: `flag` unless the face is hidden by the neighbour's `segment`. */
  function FaceShown<V>(job: Job<V>, pos: BlockPos, face: Direction, segment: Seg.Mask, flag: Seg.Mask): Seg.Mask
    requires Ready(job)
  {
    if IsSegmentHidden(job, pos, face, segment) then 0 else flag
  }

  /** The `shown` mask of a voxel: its unhidden faces, plus Center when any face shows. */
  function Shown<V>(job: Job<V>, pos: BlockPos): (r: Seg.Mask)
    requires Ready(job)
    ensures Seg.InEverything(r) && r != Seg.Center
  {
    var s := FaceShown(job, pos, North, Seg.South, Seg.North)
      | FaceShown(job, pos, East, Seg.West, Seg.East)
      | FaceShown(job, pos, South, Seg.North, Seg.South)
      | FaceShown(job, pos, West, Seg.East, Seg.West)
      | FaceShown(job, pos, Up, Seg.Bottom, Seg.Top)
      | FaceShown(job, pos, Down, Seg.Top, Seg.Bottom);
    if s > 0 then s | Seg.Center else s
  }

  /**
    The face rule: the flag of direction k (North, East, South, West, Top, Bottom in bit order)
    is shown exactly when the neighbour in that direction is empty or its model does not cover
    the face flag of the opposite direction.
  */
  lemma ShownFaceRule<V>(job: Job<V>, pos: BlockPos, k: int, n: int)
    requires Ready(job) && 0 <= k < 6 && n == job.chunkData(Step(pos, All[k]))
    ensures Shown(job, pos) & Seg.TagBit(k) != 0 <==>
      n == 0 || job.modelPointers[n - 1].occludingSegments & Seg.TagBit(IndexOf(Opposite(All[k]))) == 0
  {
    var b0, b1, b2 := FaceShown(job, pos, North, Seg.South, Seg.North), FaceShown(job, pos, East, Seg.West, Seg.East), FaceShown(job, pos, South, Seg.North, Seg.South);
    var b3, b4, b5 := FaceShown(job, pos, West, Seg.East, Seg.West), FaceShown(job, pos, Up, Seg.Bottom, Seg.Top), FaceShown(job, pos, Down, Seg.Top, Seg.Bottom);
    BlockOcclusion.FaceBitsDecide(b0, b1, b2, b3, b4, b5);
    var s := b0 | b1 | b2 | b3 | b4 | b5;
    BlockOcclusion.CenterKeepsFace(s, Seg.TagBit(k));
    if k == 0 { assert Seg.TagBit(0) == Seg.North && Seg.TagBit(2) == Seg.South; }
    else if k == 1 { assert Seg.TagBit(1) == Seg.East && Seg.TagBit(3) == Seg.West; }
    else if k == 2 { assert Seg.TagBit(2) == Seg.South && Seg.TagBit(0) == Seg.North; }
    else if k == 3 { assert Seg.TagBit(3) == Seg.West && Seg.TagBit(1) == Seg.East; }
    else if k == 4 { assert Seg.TagBit(4) == Seg.Top && Seg.TagBit(5) == Seg.Bottom; }
    else { assert Seg.TagBit(5) == Seg.Bottom && Seg.TagBit(4) == Seg.Top; }
  }

  /** The centre rule: Center is shown exactly when some face is. */
  lemma ShownCenterRule<V>(job: Job<V>, pos: BlockPos)
    requires Ready(job)
    ensures var r := Shown(job, pos);
      r & Seg.Center != 0 <==> r & (Seg.Everything ^ Seg.Center) != 0
  {
    BlockOcclusion.FaceBitsDecide(
      FaceShown(job, pos, North, Seg.South, Seg.North), FaceShown(job, pos, East, Seg.West, Seg.East),
      FaceShown(job, pos, South, Seg.North, Seg.South), FaceShown(job, pos, West, Seg.East, Seg.West),
      FaceShown(job, pos, Up, Seg.Bottom, Seg.Top), FaceShown(job, pos, Down, Seg.Top, Seg.Bottom));
  }

  /** Two masks inside `Everything` with the same seven flags are equal. */
  lemma SameFlags(a: Seg.Mask, b: Seg.Mask)
    requires Seg.InEverything(a) && Seg.InEverything(b)
    requires forall k :: 0 <= k < 7 ==> (a & Seg.TagBit(k) != 0 <==> b & Seg.TagBit(k) != 0)
    ensures a == b
  {
    assert a & 1 != 0 <==> b & 1 != 0 by { assert Seg.TagBit(0) == 1; }
    assert a & 2 != 0 <==> b & 2 != 0 by { assert Seg.TagBit(1) == 2; }
    assert a & 4 != 0 <==> b & 4 != 0 by { assert Seg.TagBit(2) == 4; }
    assert a & 8 != 0 <==> b & 8 != 0 by { assert Seg.TagBit(3) == 8; }
    assert a & 16 != 0 <==> b & 16 != 0 by { assert Seg.TagBit(4) == 16; }
    assert a & 32 != 0 <==> b & 32 != 0 by { assert Seg.TagBit(5) == 32; }
    assert a & 64 != 0 <==> b & 64 != 0 by { assert Seg.TagBit(6) == 64; }
  }

  /** The vector of a direction of the older table and of the job-based table agree. */
  lemma SameVectors(k: int)
    requires 0 <= k < 6
    ensures AsBlockPos(All[k]) == D.Named[k].vector
    ensures IndexOf(Opposite(All[k])) == BlockOcclusion.OppositeIndex(k)
  {
  }

  /**
    The chunk mesher's mask agrees with the occlusion job's `CalculateVisibleSegments` for a
    solid voxel, when both read the same ids and the same occluding segments per model.
  */
  lemma ShownAgreesWithOcclusion<V, W>(job: Job<V>, models: seq<BlockModels.UnsafeBlockModel<W>>, pos: BlockPos)
    requires Ready(job) && |models| == |job.modelPointers|
    requires forall j :: 0 <= j < |models| ==> models[j].occludingSegments == job.modelPointers[j].occludingSegments
    requires job.chunkData(pos) != 0
    ensures BlockOcclusion.IdsInRange(models, job.chunkData)
    ensures Shown(job, pos) == BlockOcclusion.CalculateVisibleSegments(models, job.chunkData, pos)
  {
    var a, b := Shown(job, pos), BlockOcclusion.CalculateVisibleSegments(models, job.chunkData, pos);
    forall k | 0 <= k < 6
      ensures a & Seg.TagBit(k) != 0 <==> b & Seg.TagBit(k) != 0
    {
      ShownFaceAgrees(job, models, pos, k);
    }
    ShownCenterRule(job, pos);
    BlockOcclusion.CenterRule(models, job.chunkData, pos);
    ExtendToCenter(a, b);
    SameFlags(a, b);
  }

  /** The two masks agree on the flag of face k. */
  lemma ShownFaceAgrees<V, W>(job: Job<V>, models: seq<BlockModels.UnsafeBlockModel<W>>, pos: BlockPos, k: int)
    requires Ready(job) && |models| == |job.modelPointers| && 0 <= k < 6
    requires forall j :: 0 <= j < |models| ==> models[j].occludingSegments == job.modelPointers[j].occludingSegments
    requires job.chunkData(pos) != 0 && BlockOcclusion.IdsInRange(models, job.chunkData)
    ensures Shown(job, pos) & Seg.TagBit(k) != 0 <==> BlockOcclusion.CalculateVisibleSegments(models, job.chunkData, pos) & Seg.TagBit(k) != 0
  {
    var n := job.chunkData(Step(pos, All[k]));
    SameVectors(k);
    ShownFaceRule(job, pos, k, n);
    BlockOcclusion.FaceVisibleRule(models, job.chunkData, pos, k);
    BlockOcclusion.HiddenFaceRule(models, job.chunkData, pos, k);
  }

  /** Agreement on the six face flags carries over to Center, when Center follows the faces in both. */
  lemma ExtendToCenter(a: Seg.Mask, b: Seg.Mask)
    requires forall k :: 0 <= k < 6 ==> (a & Seg.TagBit(k) != 0 <==> b & Seg.TagBit(k) != 0)
    requires a & Seg.Center != 0 <==> a & (Seg.Everything ^ Seg.Center) != 0
    requires b & Seg.Center != 0 <==> b & (Seg.Everything ^ Seg.Center) != 0
    ensures forall k :: 0 <= k < 7 ==> (a & Seg.TagBit(k) != 0 <==> b & Seg.TagBit(k) != 0)
  {
    assert a & 1 != 0 <==> b & 1 != 0 by { assert Seg.TagBit(0) == 1; }
    assert a & 2 != 0 <==> b & 2 != 0 by { assert Seg.TagBit(1) == 2; }
    assert a & 4 != 0 <==> b & 4 != 0 by { assert Seg.TagBit(2) == 4; }
    assert a & 8 != 0 <==> b & 8 != 0 by { assert Seg.TagBit(3) == 8; }
    assert a & 16 != 0 <==> b & 16 != 0 by { assert Seg.TagBit(4) == 16; }
    assert a & 32 != 0 <==> b & 32 != 0 by { assert Seg.TagBit(5) == 32; }
    assert Seg.TagBit(6) == Seg.Center;
  }

  /** The first n vertices of the model, translated to the voxel. */
  function ModelVertices<V>(job: Job<V>, m: OccludingBlockModel, pos: BlockPos, n: nat): (r: seq<V>)
    requires PointerInAtlas(m, job.atlasVertices, job.atlasIndices) && n <= m.vertexCount
    ensures |r| == n
  {
    if n == 0 then []
    else ModelVertices(job, m, pos, n - 1) + [job.translate(job.atlasVertices[m.vertexOffset + n - 1].data, pos)]
  }

  /** Vertex i of the copy is the model's vertex i, translated to the voxel. */
  lemma {:induction false} ModelVerticesAt<V>(job: Job<V>, m: OccludingBlockModel, pos: BlockPos, n: nat, i: int)
    requires PointerInAtlas(m, job.atlasVertices, job.atlasIndices) && n <= m.vertexCount && 0 <= i < n
    ensures ModelVertices(job, m, pos, n)[i] == job.translate(job.atlasVertices[m.vertexOffset + i].data, pos)
  {
    if i < n - 1 {
      ModelVerticesAt(job, m, pos, n - 1, i);
    }
  }

  /** The model's index i, as stored in the atlas (model-relative). */
  function RawIndex<V>(job: Job<V>, m: OccludingBlockModel, i: int): (r: int)
    requires PointerInAtlas(m, job.atlasVertices, job.atlasIndices) && 0 <= i < m.indexCount
    ensures 0 <= r && r + m.vertexOffset < |job.atlasVertices|
  {
    job.atlasIndices[m.indexOffset + i]
  }

  /** The segment of the atlas vertex that the model's index i names. */
  function SegmentOfIndex<V>(job: Job<V>, m: OccludingBlockModel, i: int): Seg.Mask
    requires PointerInAtlas(m, job.atlasVertices, job.atlasIndices) && 0 <= i < m.indexCount
  {
    job.atlasVertices[RawIndex(job, m, i) + m.vertexOffset].segment
  }

  /** The index names an atlas vertex of the model's range whose segment is shown. */
  predicate NamesShownVertex<V>(job: Job<V>, m: OccludingBlockModel, shown: Seg.Mask, index: int) {
    0 <= index && 0 <= index + m.vertexOffset < |job.atlasVertices|
    && shown & job.atlasVertices[index + m.vertexOffset].segment != 0
  }

  /** Of the model's first n indices, those whose vertex lies in a shown segment, in order and unchanged. */
  function ShownIndices<V>(job: Job<V>, m: OccludingBlockModel, shown: Seg.Mask, n: nat): (r: seq<int>)
    requires PointerInAtlas(m, job.atlasVertices, job.atlasIndices) && n <= m.indexCount
    ensures |r| <= n
    ensures forall j :: 0 <= j < |r| ==> NamesShownVertex(job, m, shown, r[j])
  {
    if n == 0 then []
    else
      var rest := ShownIndices(job, m, shown, n - 1);
      if shown & SegmentOfIndex(job, m, n - 1) == 0 then rest
      else rest + [RawIndex(job, m, n - 1)]
  }

  /** Conversely, every index whose vertex lies in a shown segment is kept. */
  lemma {:induction false} ShownIndicesKeep<V>(job: Job<V>, m: OccludingBlockModel, shown: Seg.Mask, n: nat, i: int)
    requires PointerInAtlas(m, job.atlasVertices, job.atlasIndices) && n <= m.indexCount && 0 <= i < n
    requires shown & SegmentOfIndex(job, m, i) != 0
    ensures RawIndex(job, m, i) in ShownIndices(job, m, shown, n)
  {
    if i < n - 1 {
      ShownIndicesKeep(job, m, shown, n - 1, i);
    }
  }

  /** A voxel that draws: solid, with a model that has segments, some of them shown. */
  predicate Draws<V>(job: Job<V>, pos: BlockPos)
    requires Ready(job)
  {
    var id := job.chunkData(pos);
    && id != 0
    && job.modelPointers[id - 1].containedSegments != Seg.NoSegment
    && job.modelPointers[id - 1].containedSegments & Shown(job, pos) != Seg.NoSegment
  }

  /** `b` extends `a`: both lists of `a` are prefixes of those of `b`. */
  ghost predicate Grows<V>(a: MeshData<V>, b: MeshData<V>) {
    && |a.vertices| <= |b.vertices| && b.vertices[..|a.vertices|] == a.vertices
    && |a.indices| <= |b.indices| && b.indices[..|a.indices|] == a.indices
  }

  lemma GrowsTransitive<V>(a: MeshData<V>, b: MeshData<V>, c: MeshData<V>)
    requires Grows(a, b) && Grows(b, c)
    ensures Grows(a, c)
  {
    assert c.vertices[..|a.vertices|] == c.vertices[..|b.vertices|][..|a.vertices|];
    assert c.indices[..|a.indices|] == c.indices[..|b.indices|][..|a.indices|];
  }

  /** One pass of the loop body at `pos`. */
  function VoxelStep<V>(job: Job<V>, b: MeshData<V>, pos: BlockPos): MeshData<V>
    requires Ready(job)
  {
    var id := job.chunkData(pos);
    if id == 0 then b
    else
      var m := job.modelPointers[id - 1];
      if m.containedSegments == Seg.NoSegment then b
      else
        var shown := Shown(job, pos);
        if m.containedSegments & shown == Seg.NoSegment then b
        else MeshData(b.vertices + ModelVertices(job, m, pos, m.vertexCount),
                      b.indices + ShownIndices(job, m, shown, m.indexCount))
  }

  /**
    The skip rule: a voxel that is empty, whose model has no segments, or whose model has no
    shown segment leaves the mesh as it was; any other voxel appends all of its model's vertices
    and at most all of its indices, keeping what was there.
  */
  lemma VoxelStepRule<V>(job: Job<V>, b: MeshData<V>, pos: BlockPos)
    requires Ready(job)
    ensures var r := VoxelStep(job, b, pos);
      && (!Draws(job, pos) ==> r == b)
      && Grows(b, r)
      && (Draws(job, pos) ==> var m := job.modelPointers[job.chunkData(pos) - 1];
            |r.vertices| == |b.vertices| + m.vertexCount && |r.indices| <= |b.indices| + m.indexCount)
  {
    var r := VoxelStep(job, b, pos);
    assert r.vertices[..|b.vertices|] == b.vertices && r.indices[..|b.indices|] == b.indices;
  }

  /** The mesh after the first n steps of the x / y / z loops. */
  function BuildUpTo<V>(job: Job<V>, start: MeshData<V>, n: nat): MeshData<V>
    requires Ready(job) && n <= ChunkVolume
  {
    if n == 0 then start
    else VoxelStep(job, BuildUpTo(job, start, n - 1), LocalAt(n - 1))
  }

  /** The mesh only grows: what an earlier step appended stays in place. */
  lemma {:induction false} BuildKeepsPrefix<V>(job: Job<V>, start: MeshData<V>, n: nat, m: nat)
    requires Ready(job) && n <= m <= ChunkVolume
    ensures Grows(BuildUpTo(job, start, n), BuildUpTo(job, start, m))
  {
    if n < m {
      BuildKeepsPrefix(job, start, n, m - 1);
      VoxelStepRule(job, BuildUpTo(job, start, m - 1), LocalAt(m - 1));
      GrowsTransitive(BuildUpTo(job, start, n), BuildUpTo(job, start, m - 1), BuildUpTo(job, start, m));
    } else {
      var a := BuildUpTo(job, start, n);
      assert a.vertices[..|a.vertices|] == a.vertices && a.indices[..|a.indices|] == a.indices;
    }
  }

  /** A chunk whose voxels are all empty adds nothing to the mesh. */
  lemma {:induction false} EmptyChunkAddsNothing<V>(job: Job<V>, start: MeshData<V>, n: nat)
    requires Ready(job) && n <= ChunkVolume
    requires forall p :: InChunk(p) ==> job.chunkData(p) == 0
    ensures BuildUpTo(job, start, n) == start
  {
    if n > 0 {
      EmptyChunkAddsNothing(job, start, n - 1);
      assert job.chunkData(LocalAt(n - 1)) == 0;
      VoxelStepRule(job, BuildUpTo(job, start, n - 1), LocalAt(n - 1));
    }
  }

  /** Every index of a model names a vertex of that same model. */
  predicate ModelLocal<V>(job: Job<V>, m: OccludingBlockModel)
    requires PointerInAtlas(m, job.atlasVertices, job.atlasIndices)
  {
    forall i :: 0 <= i < m.indexCount ==> RawIndex(job, m, i) < m.vertexCount
  }

  /**
    As written, the appended indices are not shifted past the vertices already in the chunk
    mesh: once earlier voxels have added at least a model's worth of vertices, every index a
    later voxel appends names one of those earlier vertices and none of its own.
  */
  lemma AsWrittenIndicesNameEarlierVertices<V>(job: Job<V>, b: MeshData<V>, pos: BlockPos)
    requires Ready(job) && Draws(job, pos)
    requires var m := job.modelPointers[job.chunkData(pos) - 1];
      ModelLocal(job, m) && m.vertexCount <= |b.vertices|
    ensures var r := VoxelStep(job, b, pos);
      forall j :: |b.indices| <= j < |r.indices| ==> 0 <= r.indices[j] < |b.vertices|
  {
    var m := job.modelPointers[job.chunkData(pos) - 1];
    var r := VoxelStep(job, b, pos);
    var added := ShownIndices(job, m, Shown(job, pos), m.indexCount);
    assert r.indices == b.indices + added;
    ShownIndicesLocal(job, m, Shown(job, pos), m.indexCount);
    forall j | |b.indices| <= j < |r.indices|
      ensures 0 <= r.indices[j] < |b.vertices|
    {
      assert r.indices[j] == added[j - |b.indices|];
    }
  }

  /** Each index shifted by `offset`. */
  function Shifted(s: seq<int>, offset: int): (r: seq<int>)
    ensures |r| == |s| && forall j :: 0 <= j < |s| ==> r[j] == s[j] + offset
  {
    if s == [] then [] else Shifted(s[..|s| - 1], offset) + [s[|s| - 1] + offset]
  }

  /** The loop body with the indices shifted past the vertices already in the mesh. */
  function RebasedVoxelStep<V>(job: Job<V>, b: MeshData<V>, pos: BlockPos): (r: MeshData<V>)
    requires Ready(job)
    ensures !Draws(job, pos) ==> r == b
    ensures r.vertices == VoxelStep(job, b, pos).vertices
  {
    if !Draws(job, pos) then b
    else
      var m := job.modelPointers[job.chunkData(pos) - 1];
      MeshData(b.vertices + ModelVertices(job, m, pos, m.vertexCount),
               b.indices + Shifted(ShownIndices(job, m, Shown(job, pos), m.indexCount), |b.vertices|))
  }

  /**
    With the shift, every index a voxel appends names one of the vertices that same voxel
    appended, and that vertex is the translated copy of the atlas vertex the model's index named.
  */
  lemma RebasedIndicesNameOwnVertices<V>(job: Job<V>, b: MeshData<V>, pos: BlockPos)
    requires Ready(job) && Draws(job, pos)
    requires ModelLocal(job, job.modelPointers[job.chunkData(pos) - 1])
    ensures var r := RebasedVoxelStep(job, b, pos);
      var m := job.modelPointers[job.chunkData(pos) - 1];
      forall j :: |b.indices| <= j < |r.indices| ==>
        && |b.vertices| <= r.indices[j] < |r.vertices|
        && r.vertices[r.indices[j]] ==
             job.translate(job.atlasVertices[m.vertexOffset + r.indices[j] - |b.vertices|].data, pos)
  {
    var m := job.modelPointers[job.chunkData(pos) - 1];
    var r := RebasedVoxelStep(job, b, pos);
    var raw := ShownIndices(job, m, Shown(job, pos), m.indexCount);
    assert r.indices == b.indices + Shifted(raw, |b.vertices|);
    assert r.vertices == b.vertices + ModelVertices(job, m, pos, m.vertexCount);
    forall j | |b.indices| <= j < |r.indices|
      ensures |b.vertices| <= r.indices[j] < |r.vertices|
      ensures r.vertices[r.indices[j]] == job.translate(job.atlasVertices[m.vertexOffset + r.indices[j] - |b.vertices|].data, pos)
    {
      RebasedIndexNamesOwnVertex(job, m, Shown(job, pos), pos, b.vertices, raw, j - |b.indices|);
    }
  }

  /** One shifted index of a voxel, and the vertex it names. */
  lemma RebasedIndexNamesOwnVertex<V>(job: Job<V>, m: OccludingBlockModel, shown: Seg.Mask, pos: BlockPos, vertices: seq<V>, raw: seq<int>, j: int)
    requires PointerInAtlas(m, job.atlasVertices, job.atlasIndices) && ModelLocal(job, m)
    requires raw == ShownIndices(job, m, shown, m.indexCount) && 0 <= j < |raw|
    ensures var all := vertices + ModelVertices(job, m, pos, m.vertexCount);
      var index := Shifted(raw, |vertices|)[j];
      && |vertices| <= index < |all|
      && all[index] == job.translate(job.atlasVertices[m.vertexOffset + index - |vertices|].data, pos)
  {
    var local := raw[j];
    ShownIndicesLocal(job, m, shown, m.indexCount);
    ModelVerticesAt(job, m, pos, m.vertexCount, local);
  }

  /** For a model whose indices stay in its own range, so do the kept ones. */
  lemma {:induction false} ShownIndicesLocal<V>(job: Job<V>, m: OccludingBlockModel, shown: Seg.Mask, n: nat)
    requires PointerInAtlas(m, job.atlasVertices, job.atlasIndices) && ModelLocal(job, m) && n <= m.indexCount
    ensures forall j :: 0 <= j < |ShownIndices(job, m, shown, n)| ==> 0 <= ShownIndices(job, m, shown, n)[j] < m.vertexCount
  {
    if n > 0 {
      ShownIndicesLocal(job, m, shown, n - 1);
    }
  }

  /** The vertex loop: all of the model's vertices, translated to the voxel, in order. */
  method AppendModelVertices<V>(job: Job<V>, m: OccludingBlockModel, pos: BlockPos, mesh: MeshBuffer<V>)
    requires PointerInAtlas(m, job.atlasVertices, job.atlasIndices)
    modifies mesh
    ensures mesh.vertices == old(mesh.vertices) + ModelVertices(job, m, pos, m.vertexCount)
    ensures mesh.indices == old(mesh.indices)
  {
    var i := 0;
    while i < m.vertexCount
      invariant 0 <= i <= m.vertexCount
      invariant mesh.vertices == old(mesh.vertices) + ModelVertices(job, m, pos, i)
      invariant mesh.indices == old(mesh.indices)
    {
      var vertex := job.atlasVertices[i + m.vertexOffset];
      mesh.AppendVertex(job.translate(vertex.data, pos));
      i := i + 1;
    }
  }

  /** The index loop: the model's indices whose vertex lies in a shown segment, unchanged, in order. */
  method AppendShownIndices<V>(job: Job<V>, m: OccludingBlockModel, shown: Seg.Mask, mesh: MeshBuffer<V>)
    requires PointerInAtlas(m, job.atlasVertices, job.atlasIndices)
    modifies mesh
    ensures mesh.indices == old(mesh.indices) + ShownIndices(job, m, shown, m.indexCount)
    ensures mesh.vertices == old(mesh.vertices)
  {
    var i := 0;
    while i < m.indexCount
      invariant 0 <= i <= m.indexCount
      invariant mesh.indices == old(mesh.indices) + ShownIndices(job, m, shown, i)
      invariant mesh.vertices == old(mesh.vertices)
    {
      var index := job.atlasIndices[i + m.indexOffset];
      var vertex := job.atlasVertices[index + m.vertexOffset];
      if shown & vertex.segment != 0 {
        mesh.AppendIndex(index);
      }
      i := i + 1;
    }
  }

  /** The loop body at one position, with its three `continue`s. */
  method DrawVoxel<V>(job: Job<V>, pos: BlockPos, mesh: MeshBuffer<V>)
    requires Ready(job)
    modifies mesh
    ensures mesh.Data() == VoxelStep(job, old(mesh.Data()), pos)
  {
    var modelIndex := job.chunkData(pos);
    if modelIndex == 0 {
      return;
    }
    modelIndex := modelIndex - 1;
    var modelPointer := job.modelPointers[modelIndex];
    if modelPointer.containedSegments == Seg.NoSegment {
      return;
    }
    var shown := Shown(job, pos);
    if modelPointer.containedSegments & shown == Seg.NoSegment {
      return;
    }
    AppendModelVertices(job, modelPointer, pos, mesh);
    AppendShownIndices(job, modelPointer, shown, mesh);
  }

  /** Drawing the voxel the loops visit at step m takes the mesh from the first m steps to the first m + 1. */
  method DrawStep<V>(job: Job<V>, pos: BlockPos, mesh: MeshBuffer<V>, ghost start: MeshData<V>, ghost m: nat)
    requires Ready(job) && InChunk(pos) && m == StepOf(pos)
    requires mesh.Data() == BuildUpTo(job, start, m)
    modifies mesh
    ensures mesh.Data() == BuildUpTo(job, start, m + 1)
  {
    LocalAtStepOf(pos);
    DrawVoxel(job, pos, mesh);
  }

  /** The innermost loop: the sixteen voxels of one (x, y) column, z ascending; `n` counts the steps before it. */
  method DrawColumn<V>(job: Job<V>, x: int, y: int, mesh: MeshBuffer<V>, ghost start: MeshData<V>, ghost n: nat)
    requires Ready(job) && 0 <= x < 16 && 0 <= y < 16 && n == x * 256 + y * 16
    requires mesh.Data() == BuildUpTo(job, start, n)
    modifies mesh
    ensures mesh.Data() == BuildUpTo(job, start, n + 16)
  {
    ghost var m := n;
    for z := 0 to 16
      invariant m == n + z
      invariant mesh.Data() == BuildUpTo(job, start, m)
    {
      DrawStep(job, BlockPos(x, y, z), mesh, start, m);
      m := m + 1;
    }
  }

  /** The middle loop: the sixteen columns of one x slab, y ascending; `n` counts the steps before it. */
  method DrawSlab<V>(job: Job<V>, x: int, mesh: MeshBuffer<V>, ghost start: MeshData<V>, ghost n: nat)
    requires Ready(job) && 0 <= x < 16 && n == x * 256
    requires mesh.Data() == BuildUpTo(job, start, n)
    modifies mesh
    ensures mesh.Data() == BuildUpTo(job, start, n + 256)
  {
    ghost var k := n;
    for y := 0 to 16
      invariant k == n + y * 16
      invariant mesh.Data() == BuildUpTo(job, start, k)
    {
      DrawColumn(job, x, y, mesh, start, k);
      k := k + 16;
    }
  }

  /** `Execute`: the voxels of the chunk in loop order, each handled as `VoxelStep` says. */
  method Execute<V>(job: Job<V>, mesh: MeshBuffer<V>)
    requires Ready(job)
    modifies mesh
    ensures mesh.Data() == BuildUpTo(job, old(mesh.Data()), ChunkVolume)
  {
    ghost var start := mesh.Data();
    for x := 0 to 16
      invariant mesh.Data() == BuildUpTo(job, start, x * 256)
    {
      DrawSlab(job, x, mesh, start, x * 256);
    }
  }
}
